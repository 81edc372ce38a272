/** Leases: all Connect calls and control connections of one client transport, sharing one pool. */
module ClientSpec {
  import opened Common
  import opened PoolSpec

  // Where one Connect call and the control connection it returns are. Ended covers a Connect that
  // failed and a control connection that was closed.
  datatype Phase = Connecting(conn: Conn) | Open(conn: Conn) | Ended

  datatype Sys = Sys(
    addr: string,             // the address the transport dials
    pool: Pool,
    clients: map<nat, Phase>,
    session: Option<nat>,     // the Connect call whose session the transport's fields hold
    dialled: set<Conn>,
    hung: set<Conn>,          // connections some control connection has closed with CloseWithError
    aborted: set<Conn>)       // connections some failing Connect has returned

  datatype Event =
    | Connect(c: nat, stale: bool, now: int, dial: Dial)
    | ConnectFails(c: nat, stale: bool)
    | ConnectReturns(c: nat)
    | CloseControl(c: nat, stale: bool)
    | Cleanup(now: int)
    | TransportClose
    | Drain

  function Init(addr: string, maxPoolSize: int, maxIdleTime: int): Sys {
    Sys(addr, New(maxPoolSize, maxIdleTime), map[], None, {}, {}, {})
  }

  // A dial yields a connection not seen before, and every Connect call is a new one.
  predicate Enabled(s: Sys, ev: Event) {
    match ev
    case Connect(c, _, _, dial) => c !in s.clients && (dial.Dialed? ==> dial.conn !in s.dialled)
    case ConnectFails(c, _) => c in s.clients && s.clients[c].Connecting?
    case ConnectReturns(c) => c in s.clients && s.clients[c].Connecting?
    case _ => true
  }

  // An event that cannot happen in a state leaves it unchanged.
  ghost function Step(s: Sys, ev: Event): Sys {
    if !Enabled(s, ev) then s
    else match ev
    case Connect(c, stale, now, dial) =>
      var (pool, r) := Get(s.pool, stale, s.addr, now, dial);
      if r.Got? then s.(pool := pool, clients := s.clients[c := Connecting(r.conn)], dialled := s.dialled + {r.conn})
      else s.(pool := pool, clients := s.clients[c := Ended])
    case ConnectFails(c, stale) =>
      var conn := s.clients[c].conn;
      s.(pool := Put(s.pool, stale, conn), clients := s.clients[c := Ended], aborted := s.aborted + {conn})
    case ConnectReturns(c) => s.(clients := s.clients[c := Open(s.clients[c].conn)], session := Some(c))
    case CloseControl(c, stale) =>
      if c in s.clients && s.clients[c].Open? then
        var conn := s.clients[c].conn;
        s.(pool := Put(s.pool, stale, conn), clients := s.clients[c := Ended], session := None, hung := s.hung + {conn})
      else s
    case Cleanup(now) => s.(pool := CleanupLocked(s.pool, now))
    case TransportClose => s.(pool := CloseBegin(s.pool))
    case Drain => s.(pool := CloseDrain(s.pool))
  }

  ghost function Run(s: Sys, evs: seq<Event>): Sys {
    if evs == [] then s else Step(Run(s, evs[..|evs| - 1]), evs[|evs| - 1])
  }

  // ---- who holds what ----

  predicate Holds(s: Sys, c: nat, conn: Conn) {
    c in s.clients && !s.clients[c].Ended? && s.clients[c].conn == conn
  }

  function Holders(s: Sys): set<nat> {
    set c | c in s.clients && !s.clients[c].Ended?
  }

  function Held(s: Sys): set<Conn> {
    set c | c in Holders(s) :: s.clients[c].conn
  }

  function Mine(s: Sys): seq<Entry> { Lookup(s.pool.connections, s.addr) }

  function InUse(es: seq<Entry>): set<Conn> {
    set e | e in es && e.inUse :: e.conn
  }

  // Marked in use, held by nobody.
  function Leaked(s: Sys): set<Conn> { InUse(Mine(s)) - Held(s) }

  ghost predicate OneEach(es: seq<Entry>) {
    forall i, j :: 0 <= i < j < |es| ==> es[i].conn != es[j].conn
  }

  // The list of one address against the connections held; `spent` are those returned at least once.
  ghost predicate LeaseInv(addr: string, es: seq<Entry>, held: set<Conn>, dialled: set<Conn>, spent: set<Conn>, closed: bool) {
    && OneEach(es)
    && (forall e :: e in es ==> e.conn in dialled)
    && held <= dialled
    && (forall e :: e in es && !e.inUse ==> e.conn !in held && e.conn in spent)
    && (!closed ==> held <= InUse(es))
    && (!closed ==> forall k :: k in InUse(es) && k !in held ==> k.remote != addr)
  }

  ghost predicate OwnLease(clients: map<nat, Phase>) {
    forall c, d ::
      c in clients && d in clients && !clients[c].Ended? && !clients[d].Ended? && clients[c].conn == clients[d].conn ==>
        c == d
  }

  ghost predicate Inv(s: Sys) {
    && Conserved(s.pool, 0)
    && s.pool.connections.Keys <= {s.addr}
    && LeaseInv(s.addr, Mine(s), Held(s), s.dialled, s.hung + s.aborted, s.pool.closed)
    && OwnLease(s.clients)
  }

  // ---- lists of entries ----

  lemma Replaced(es: seq<Entry>, i: nat, e: Entry)
    requires i < |es| && OneEach(es) && e.conn == es[i].conn
    ensures OneEach(es[i := e])
    ensures InUse(es[i := e]) == (if e.inUse then InUse(es) + {e.conn} else InUse(es) - {e.conn})
    ensures forall f :: f in es[i := e] ==> f == e || (f in es && f.conn != e.conn)
  {
    var gs := es[i := e];
    forall k | k in InUse(es) && k != e.conn ensures k in InUse(gs) {
      var f :| f in es && f.inUse && f.conn == k;
      var j :| 0 <= j < |es| && es[j] == f;
      assert gs[j] == f;
    }
    if e.inUse {
      assert gs[i] == e && e in gs;
    }
  }

  lemma Snoc(es: seq<Entry>, e: Entry)
    ensures InUse(es + [e]) == InUse(es) + (if e.inUse then {e.conn} else {})
  {
    assert (es + [e])[|es|] == e;
    forall f | f in es ensures f in es + [e] {
    }
  }

  lemma {:induction false} KeepIsPart(es: seq<Entry>, maxIdle: int, now: int)
    requires OneEach(es)
    ensures var kept := Keep(es, maxIdle, now);
      OneEach(kept) && InUse(kept) == InUse(es) && forall e :: e in kept ==> e in es
  {
    if es != [] {
      var n := |es| - 1;
      KeepIsPart(es[..n], maxIdle, now);
      assert es == es[..n] + [es[n]];
      Snoc(es[..n], es[n]);
      Snoc(Keep(es[..n], maxIdle, now), es[n]);
      forall e | e in es[..n] ensures e.conn != es[n].conn {
        var j :| 0 <= j < n && es[j] == e;
      }
    }
  }

  lemma Taken(addr: string, es: seq<Entry>, i: nat, now: int, held: set<Conn>, dialled: set<Conn>, spent: set<Conn>, closed: bool)
    requires LeaseInv(addr, es, held, dialled, spent, closed) && i < |es| && !es[i].inUse
    ensures es[i].conn !in held
    ensures LeaseInv(addr, es[i := es[i].(lastUsedAt := now, inUse := true)], held + {es[i].conn},
                     dialled + {es[i].conn}, spent, closed)
  {
    assert es[i] in es;
    Replaced(es, i, es[i].(lastUsedAt := now, inUse := true));
  }

  lemma Extended(addr: string, es: seq<Entry>, e: Entry, held: set<Conn>, dialled: set<Conn>, spent: set<Conn>, closed: bool)
    requires LeaseInv(addr, es, held, dialled, spent, closed) && e.conn !in dialled && e.inUse
    ensures LeaseInv(addr, es + [e], held + {e.conn}, dialled + {e.conn}, spent, closed)
  {
    Snoc(es, e);
  }

  lemma GivenBack(addr: string, es: seq<Entry>, i: nat, held: set<Conn>, dialled: set<Conn>, spent: set<Conn>, closed: bool)
    requires LeaseInv(addr, es, held, dialled, spent, closed) && i < |es|
    ensures LeaseInv(addr, es[i := es[i].(inUse := false)], held - {es[i].conn}, dialled, spent + {es[i].conn}, closed)
  {
    Replaced(es, i, es[i].(inUse := false));
  }

  // ---- each step keeps the invariant ----

  lemma HeldGrows(s: Sys, t: Sys, c: nat, conn: Conn)
    requires c !in s.clients && t.clients == s.clients[c := Connecting(conn)]
    ensures Holders(t) == Holders(s) + {c} && Held(t) == Held(s) + {conn}
    ensures OwnLease(s.clients) && conn !in Held(s) ==> OwnLease(t.clients)
  {
    assert Holders(t) == Holders(s) + {c};
    forall d | d in Holders(s) ensures t.clients[d].conn in Held(t) && s.clients[d].conn in Held(s) {
    }
  }

  lemma HeldShrinks(s: Sys, t: Sys, c: nat)
    requires OwnLease(s.clients) && c in Holders(s) && t.clients == s.clients[c := Ended]
    ensures Holders(t) == Holders(s) - {c} && Held(t) == Held(s) - {s.clients[c].conn} && OwnLease(t.clients)
  {
    assert Holders(t) == Holders(s) - {c};
    forall k | k in Held(s) && k != s.clients[c].conn ensures k in Held(t) {
      var d :| d in Holders(s) && s.clients[d].conn == k;
      assert d in Holders(t);
    }
  }

  lemma HeldSame(s: Sys, t: Sys)
    requires forall d :: d in s.clients ==> d in t.clients && s.clients[d].Ended? == t.clients[d].Ended?
    requires forall d :: d in s.clients && !s.clients[d].Ended? ==> s.clients[d].conn == t.clients[d].conn
    requires forall d :: d in t.clients && d !in s.clients ==> t.clients[d].Ended?
    ensures Holders(t) == Holders(s) && Held(t) == Held(s) && (OwnLease(s.clients) ==> OwnLease(t.clients))
  {
    assert Holders(t) == Holders(s);
  }

  lemma {:induction false} ConnectKeeps(s: Sys, ev: Event)
    requires Inv(s) && ev.Connect? && Enabled(s, ev)
    ensures Inv(Step(s, ev))
  {
    var t, es, closed := Step(s, ev), Mine(s), s.pool.closed;
    if closed && !ev.stale {
      HeldSame(s, t);
    } else {
      GetConserves(s.pool, s.addr, ev.now, ev.dial, 0);
      match FirstReusable(es, s.pool.maxIdleTime, ev.now)
      case Some(i) =>
        Taken(s.addr, es, i, ev.now, Held(s), s.dialled, s.hung + s.aborted, closed);
        HeldGrows(s, t, ev.c, es[i].conn);
      case None =>
        if !AtCapacity(s.pool) && ev.dial.Dialed? {
          Extended(s.addr, es, Entry(ev.dial.conn, ev.dial.at, true), Held(s), s.dialled, s.hung + s.aborted, closed);
          HeldGrows(s, t, ev.c, ev.dial.conn);
        } else {
          HeldSame(s, t);
        }
    }
  }

  // A holder gives its connection back: its Connect fails or its control connection closes.
  predicate GivesBack(s: Sys, ev: Event) {
    || (ev.ConnectFails? && ev.c in s.clients && s.clients[ev.c].Connecting?)
    || (ev.CloseControl? && ev.c in s.clients && s.clients[ev.c].Open?)
  }

  lemma ReturnKeeps(s: Sys, ev: Event)
    requires Inv(s) && GivesBack(s, ev)
    ensures Inv(Step(s, ev))
  {
    var t, conn := Step(s, ev), s.clients[ev.c].conn;
    assert ev.c in Holders(s) && conn in Held(s);
    HeldShrinks(s, t, ev.c);
    ReturnHitsBusy(s, ev.stale, conn);
    PutConserves(s.pool, ev.stale, conn, 0);
    ReturnedList(s, ev.stale, conn);
    assert t.hung + t.aborted == s.hung + s.aborted + {conn};
  }

  lemma ReturnHitsBusy(s: Sys, stale: bool, conn: Conn)
    requires Inv(s) && conn in Held(s)
    ensures !HitsIdle(s.pool, EvPut(stale, conn))
  {
    var i := IndexOf(Lookup(s.pool.connections, conn.remote), conn);
    if i.Some? {
      assert conn.remote == s.addr && Mine(s)[i.value] in Mine(s);
    }
  }

  lemma ReturnedList(s: Sys, stale: bool, conn: Conn)
    requires Inv(s) && conn in Held(s)
    ensures var m := Put(s.pool, stale, conn).connections;
      && m.Keys <= {s.addr}
      && LeaseInv(s.addr, Lookup(m, s.addr), Held(s) - {conn}, s.dialled, s.hung + s.aborted + {conn}, s.pool.closed)
  {
    var i := IndexOf(Lookup(s.pool.connections, conn.remote), conn);
    if !(s.pool.closed && !stale) && i.Some? {
      GivenBack(s.addr, Mine(s), i.value, Held(s), s.dialled, s.hung + s.aborted, s.pool.closed);
    } else {
      if !s.pool.closed {
        Unlisted(s, conn);
      }
      Unreturned(s.addr, Mine(s), conn, Held(s), s.dialled, s.hung + s.aborted, s.pool.closed);
    }
  }

  lemma Unreturned(addr: string, es: seq<Entry>, conn: Conn, held: set<Conn>, dialled: set<Conn>, spent: set<Conn>, closed: bool)
    requires LeaseInv(addr, es, held, dialled, spent, closed) && (!closed ==> conn.remote != addr)
    ensures LeaseInv(addr, es, held - {conn}, dialled, spent + {conn}, closed)
  {
  }

  lemma Unlisted(s: Sys, conn: Conn)
    requires Inv(s) && !s.pool.closed && conn in Held(s)
    requires IndexOf(Lookup(s.pool.connections, conn.remote), conn).None?
    ensures conn.remote != s.addr
  {
    var e :| e in Mine(s) && e.inUse && e.conn == conn;
    var j :| 0 <= j < |Mine(s)| && Mine(s)[j] == e;
  }

  lemma CleanedMine(s: Sys, now: int)
    ensures Mine(Step(s, Cleanup(now))) == Keep(Mine(s), s.pool.maxIdleTime, now)
    ensures Step(s, Cleanup(now)).pool.connections.Keys <= s.pool.connections.Keys
  {
  }

  lemma KeptList(addr: string, es: seq<Entry>, held: set<Conn>, dialled: set<Conn>, spent: set<Conn>, closed: bool,
                 maxIdle: int, now: int)
    requires LeaseInv(addr, es, held, dialled, spent, closed)
    ensures LeaseInv(addr, Keep(es, maxIdle, now), held, dialled, spent, closed)
  {
    KeepIsPart(es, maxIdle, now);
  }

  lemma CleanupConserves(p: Pool, now: int)
    requires Conserved(p, 0)
    ensures Conserved(CleanupLocked(p, now), 0)
  {
    CleanupCounts(p, now);
  }

  lemma CleanupKeeps(s: Sys, now: int)
    requires Inv(s)
    ensures Inv(Step(s, Cleanup(now)))
  {
    CleanedMine(s, now);
    CleanupConserves(s.pool, now);
    KeptList(s.addr, Mine(s), Held(s), s.dialled, s.hung + s.aborted, s.pool.closed, s.pool.maxIdleTime, now);
    HeldSame(s, Step(s, Cleanup(now)));
  }

  lemma DrainKeeps(s: Sys)
    requires Inv(s)
    ensures Inv(Step(s, Drain))
  {
    HeldSame(s, Step(s, Drain));
    if s.pool.draining {
      assert Mine(Step(s, Drain)) == [];
    }
  }

  lemma StepKeeps(s: Sys, ev: Event)
    requires Inv(s)
    ensures Inv(Step(s, ev))
  {
    match ev
    case Connect(_, _, _, _) =>
      if Enabled(s, ev) {
        ConnectKeeps(s, ev);
      }
    case ConnectFails(_, _) =>
      if Enabled(s, ev) {
        ReturnKeeps(s, ev);
      }
    case CloseControl(_, _) =>
      if GivesBack(s, ev) {
        ReturnKeeps(s, ev);
      }
    case Cleanup(now) => CleanupKeeps(s, now);
    case Drain => DrainKeeps(s);
    case _ => HeldSame(s, Step(s, ev));
  }

  lemma {:induction false} RunsKeep(addr: string, maxPoolSize: int, maxIdleTime: int, evs: seq<Event>)
    ensures Inv(Run(Init(addr, maxPoolSize, maxIdleTime), evs))
  {
    if evs != [] {
      var n := |evs| - 1;
      RunsKeep(addr, maxPoolSize, maxIdleTime, evs[..n]);
      StepKeeps(Run(Init(addr, maxPoolSize, maxIdleTime), evs[..n]), evs[n]);
    }
  }

  // ---- what the invariant means ----

  lemma {:induction false} BusyIsCardinality(es: seq<Entry>)
    requires OneEach(es)
    ensures Busy(es) == |InUse(es)|
  {
    if es != [] {
      var n := |es| - 1;
      BusyIsCardinality(es[..n]);
      assert es == es[..n] + [es[n]];
      assert InUse(es) == InUse(es[..n]) + (if es[n].inUse then {es[n].conn} else {});
    }
  }

  function Image(cs: set<nat>, f: map<nat, Conn>): set<Conn>
    requires cs <= f.Keys
  {
    set c | c in cs :: f[c]
  }

  lemma {:induction false} InjectiveImage(cs: set<nat>, f: map<nat, Conn>)
    requires cs <= f.Keys
    requires forall c, d :: c in cs && d in cs && f[c] == f[d] ==> c == d
    ensures |Image(cs, f)| == |cs|
    decreases cs
  {
    if c :| c in cs {
      InjectiveImage(cs - {c}, f);
      assert Image(cs, f) == Image(cs - {c}, f) + {f[c]};
    }
  }

  lemma LeasedHere(s: Sys)
    requires s.pool.connections.Keys <= {s.addr}
    ensures Leased(s.pool) == Busy(Mine(s)) && Pooled(s.pool) == |Mine(s)|
  {
    var m := s.pool.connections;
    if s.addr in m {
      SumTake(Busies(m), s.addr);
      SumTake(Lens(m), s.addr);
      assert Busies(m) - {s.addr} == map[] && Lens(m) - {s.addr} == map[];
    } else {
      assert m == map[];
    }
  }

  lemma {:induction false} ActiveIsHolders(s: Sys)
    requires Inv(s)
    ensures s.pool.stats.active == |InUse(Mine(s))|
    ensures !s.pool.closed ==> |InUse(Mine(s))| == |Holders(s)| + |Leaked(s)|
  {
    LeasedHere(s);
    BusyIsCardinality(Mine(s));
    if !s.pool.closed {
      HoldersAreHeld(s);
      HeldAndLeaked(InUse(Mine(s)), Held(s));
    }
  }

  lemma HeldAndLeaked(busy: set<Conn>, held: set<Conn>)
    requires held <= busy
    ensures |busy| == |held| + |busy - held|
  {
    assert busy == held + (busy - held);
  }

  lemma HoldersAreHeld(s: Sys)
    requires OwnLease(s.clients)
    ensures |Held(s)| == |Holders(s)|
  {
    var f := map c | c in Holders(s) :: s.clients[c].conn;
    InjectiveImage(Holders(s), f);
    assert Held(s) == Image(Holders(s), f);
  }

  /** In every run no connection is leased to two at a time, and while the pool is open its active
      counter is the number of Connect calls in flight and open control connections, plus the
      leases lost because the dialled name is not the reported address. */
  lemma {:induction false} LeasesBalance(addr: string, maxPoolSize: int, maxIdleTime: int, evs: seq<Event>)
    ensures var s := Run(Init(addr, maxPoolSize, maxIdleTime), evs);
      && (forall c, d, conn :: Holds(s, c, conn) && Holds(s, d, conn) ==> c == d)
      && (!s.pool.closed ==> s.pool.stats.active == |Holders(s)| + |Leaked(s)|)
      && (!s.pool.closed ==> forall k :: k in Leaked(s) ==> k.remote != s.addr)
      && (IsHealthy(s.pool) <==> !s.pool.closed)
  {
    var s := Run(Init(addr, maxPoolSize, maxIdleTime), evs);
    RunsKeep(addr, maxPoolSize, maxIdleTime, evs);
    ActiveIsHolders(s);
    LeasedAtMostPooled(s.pool.connections);
  }

  /** When the dialled name is the reported address, active counts exactly the live leases. */
  lemma MatchingAddressesBalance(addr: string, maxPoolSize: int, maxIdleTime: int, evs: seq<Event>)
    requires forall k :: k in Run(Init(addr, maxPoolSize, maxIdleTime), evs).dialled ==> k.remote == addr
    ensures var s := Run(Init(addr, maxPoolSize, maxIdleTime), evs);
      !s.pool.closed ==> s.pool.stats.active == |Holders(s)| && InUse(Mine(s)) == Held(s)
  {
    var s := Run(Init(addr, maxPoolSize, maxIdleTime), evs);
    RunsKeep(addr, maxPoolSize, maxIdleTime, evs);
    AddrFixed(Init(addr, maxPoolSize, maxIdleTime), evs);
    ActiveIsHolders(s);
    if !s.pool.closed {
      forall k ensures k !in Leaked(s) {
        if e :| e in Mine(s) && e.inUse && e.conn == k {
          assert k in s.dialled;
        }
      }
      assert Leaked(s) == {};
    }
  }

  lemma {:induction false} AddrFixed(s: Sys, evs: seq<Event>)
    ensures Run(s, evs).addr == s.addr
  {
    if evs != [] {
      AddrFixed(s, evs[..|evs| - 1]);
    }
  }

  // What a pool hit hands out was given back by a closing control connection or a failing Connect.
  lemma PoolHitsAreSpent(addr: string, maxPoolSize: int, maxIdleTime: int, evs: seq<Event>, ev: Event)
    ensures var s := Run(Init(addr, maxPoolSize, maxIdleTime), evs);
      ev.Connect? && Enabled(s, ev) && Reuses(s.pool, EvGet(ev.stale, s.addr, ev.now, ev.dial)) ==>
        var p := Step(s, ev).clients[ev.c];
        p.Connecting? && (p.conn in s.hung || p.conn in s.aborted) && (s.aborted == {} ==> p.conn in s.hung)
  {
    var s := Run(Init(addr, maxPoolSize, maxIdleTime), evs);
    RunsKeep(addr, maxPoolSize, maxIdleTime, evs);
    if ev.Connect? && Enabled(s, ev) && Reuses(s.pool, EvGet(ev.stale, s.addr, ev.now, ev.dial)) {
      var i := FirstReusable(Mine(s), s.pool.maxIdleTime, ev.now).value;
      assert Mine(s)[i] in Mine(s);
    }
  }

  /** Giving a lease back to an open pool loses it exactly when the address it reports is not the name
      that was dialled; then the pool does not change at all. */
  lemma GivingBackLeaksIff(s: Sys, ev: Event)
    requires Inv(s) && !s.pool.closed && GivesBack(s, ev)
    ensures var t, k := Step(s, ev), s.clients[ev.c].conn;
      && k !in Leaked(s) && (k in Leaked(t) <==> k.remote != s.addr)
      && Leaked(t) == Leaked(s) + (if k.remote != s.addr then {k} else {})
      && (t.pool == s.pool <==> k.remote != s.addr)
  {
    var t, k := Step(s, ev), s.clients[ev.c].conn;
    assert ev.c in Holders(s) && k in Held(s);
    HeldShrinks(s, t, ev.c);
    assert t.pool == PutLocked(s.pool, k);
    if k.remote == s.addr {
      PutHere(s, k);
    } else {
      PutNowhere(s, k);
    }
    LeakedAfter(InUse(Mine(s)), Held(s), k);
  }

  lemma LeakedAfter(busy: set<Conn>, held: set<Conn>, k: Conn)
    requires k in busy && k in held
    ensures (busy - {k}) - (held - {k}) == busy - held
    ensures busy - (held - {k}) == (busy - held) + {k}
  {
  }

  lemma PutHere(s: Sys, k: Conn)
    requires Inv(s) && !s.pool.closed && k in Held(s) && k.remote == s.addr
    ensures PutLocked(s.pool, k) != s.pool
    ensures InUse(Lookup(PutLocked(s.pool, k).connections, s.addr)) == InUse(Mine(s)) - {k}
  {
    var e :| e in Mine(s) && e.inUse && e.conn == k;
    var i :| 0 <= i < |Mine(s)| && Mine(s)[i] == e;
    assert IndexOf(Mine(s), k) == Some(i);
    Replaced(Mine(s), i, e.(inUse := false));
    assert PutLocked(s.pool, k).stats != s.pool.stats;
  }

  lemma PutNowhere(s: Sys, k: Conn)
    requires s.pool.connections.Keys <= {s.addr} && k.remote != s.addr
    ensures PutLocked(s.pool, k) == s.pool
  {
  }

  /** Leaks only accumulate while the pool is open. */
  lemma {:induction false} LeaksStay(s: Sys, ev: Event)
    requires Inv(s)
    ensures !Step(s, ev).pool.closed ==> Leaked(s) <= Leaked(Step(s, ev))
  {
    var t, es := Step(s, ev), Mine(s);
    if !t.pool.closed {
      forall k | k in Leaked(s) ensures k in InUse(Mine(t)) && k !in Held(t) {
        StillInUse(s, ev, k);
        if d :| d in Holders(t) && t.clients[d].conn == k {
          NotTaken(s, ev, d);
        }
      }
    }
  }

  lemma StillInUse(s: Sys, ev: Event, k: Conn)
    requires Inv(s) && !s.pool.closed && k in Leaked(s)
    ensures k in InUse(Mine(Step(s, ev)))
  {
    if ev.Cleanup? {
      CleanedMine(s, ev.now);
      KeepIsPart(Mine(s), s.pool.maxIdleTime, ev.now);
    } else {
      var i := LeakedAt(s, k);
      EntryStays(s, ev, i);
      assert Mine(Step(s, ev))[i] in Mine(Step(s, ev));
    }
  }

  lemma LeakedAt(s: Sys, k: Conn) returns (i: nat)
    requires Inv(s) && !s.pool.closed && k in Leaked(s)
    ensures i < |Mine(s)| && Mine(s)[i].conn == k && Mine(s)[i].inUse && k.remote != s.addr
    ensures !s.pool.draining
  {
    var e :| e in Mine(s) && e.inUse && e.conn == k;
    i :| 0 <= i < |Mine(s)| && Mine(s)[i] == e;
  }

  // An entry in use under a name other than its reported address is touched only by closing.
  lemma EntryStays(s: Sys, ev: Event, i: nat)
    requires i < |Mine(s)| && Mine(s)[i].inUse && Mine(s)[i].conn.remote != s.addr
    requires !ev.Cleanup? && !s.pool.draining
    ensures i < |Mine(Step(s, ev))| && Mine(Step(s, ev))[i] == Mine(s)[i]
  {
    if Enabled(s, ev) && (ev.ConnectFails? || (ev.CloseControl? && ev.c in s.clients && s.clients[ev.c].Open?)) {
      PutElsewhere(s, ev.stale, s.clients[ev.c].conn, i);
    }
  }

  lemma PutElsewhere(s: Sys, stale: bool, conn: Conn, i: nat)
    requires i < |Mine(s)| && Mine(s)[i].conn.remote != s.addr
    ensures var es := Lookup(Put(s.pool, stale, conn).connections, s.addr);
      i < |es| && es[i] == Mine(s)[i]
  {
  }

  lemma NotTaken(s: Sys, ev: Event, d: nat)
    requires Inv(s) && !s.pool.closed && d in Holders(Step(s, ev))
    ensures Step(s, ev).clients[d].conn !in Leaked(s)
  {
    if d in Holders(s) {
      assert s.clients[d].conn in Held(s);
    } else {
      assert ev.Connect? && d == ev.c;
      NewLeaseIsIdle(s, ev);
    }
  }

  lemma NewLeaseIsIdle(s: Sys, ev: Event)
    requires Inv(s) && ev.Connect? && Enabled(s, ev) && Step(s, ev).clients[ev.c].Connecting?
    ensures Step(s, ev).clients[ev.c].conn !in InUse(Mine(s))
  {
    var i := FirstReusable(Mine(s), s.pool.maxIdleTime, ev.now);
    if i.Some? {
      IdleNotInUse(Mine(s), i.value);
    }
  }

  lemma IdleNotInUse(es: seq<Entry>, i: nat)
    requires OneEach(es) && i < |es| && !es[i].inUse
    ensures es[i].conn !in InUse(es)
  {
    forall f | f in es && f.inUse ensures f.conn != es[i].conn {
      var j :| 0 <= j < |es| && es[j] == f;
    }
  }

  /** When the leaks reach the pool's size every Connect is refused, for good. */
  lemma LeaksExhaustThePool(s: Sys, stale: bool, now: int, dial: Dial)
    requires Inv(s) && !s.pool.closed && s.pool.maxPoolSize > 0 && |Leaked(s)| >= s.pool.maxPoolSize
    ensures Get(s.pool, stale, s.addr, now, dial) == (s.pool, Refused(PoolFull))
  {
    ActiveIsHolders(s);
    LeasedHere(s);
    BusyIsCardinality(Mine(s));
    AllBusy(Mine(s));
    forall i | 0 <= i < |Mine(s)| ensures !Reusable(Mine(s)[i], s.pool.maxIdleTime, now) {
      assert Mine(s)[i] in Mine(s);
    }
  }

  lemma {:induction false} AllBusy(es: seq<Entry>)
    ensures Busy(es) == |es| ==> forall e :: e in es ==> e.inUse
  {
    if es != [] {
      AllBusy(es[..|es| - 1]);
    }
  }
}
