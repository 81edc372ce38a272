/** The control connection on values: message IDs, what a received object does, what successive Reads
    return, and how acknowledgements are counted over every run. */
module ControlSpec {
  import opened Common
  import opened AckSpec

  // ---- JSON-RPC messages and their IDs ----

  // A valid ID is a number or a string; an absent one is invalid.
  datatype ID = Num(n: int) | Str(s: string)

  datatype Message = Request(verb: string, id: Option<ID>) | Response(id: Option<ID>, failed: bool)

  const HEARTBEAT_METHOD := "notifications/moqt/heartbeat"

  function Digit(d: nat): char
    requires d < 10
  {
    '0' + d as char
  }

  function Decimal(n: nat): (s: string)
    ensures s != [] && s[0] != '-'
  {
    if n < 10 then [Digit(n)] else Decimal(n / 10) + [Digit(n % 10)]
  }

  function Sprint(id: ID): string {
    match id
    case Num(n) => if n < 0 then "-" + Decimal(-n) else Decimal(n)
    case Str(s) => s
  }

  // The text under which a message is tracked; empty for a message without a valid ID.
  function MessageID(m: Message): string {
    if m.id.Some? then Sprint(m.id.value) else ""
  }

  function Value(s: string): int {
    if s == [] then 0 else Value(s[..|s| - 1]) * 10 + (s[|s| - 1] as int - '0' as int)
  }

  lemma {:induction false} ValueOfDecimal(n: nat)
    ensures Value(Decimal(n)) == n
  {
    if n >= 10 {
      ValueOfDecimal(n / 10);
      assert Decimal(n)[..|Decimal(n)| - 1] == Decimal(n / 10);
    } else {
      assert Decimal(n)[..0] == [];
    }
  }

  lemma DecimalsApart(x: nat, y: nat)
    ensures Decimal(x) == Decimal(y) ==> x == y
    ensures "-" + Decimal(x) == "-" + Decimal(y) ==> x == y
    ensures "-" + Decimal(x) != Decimal(y)
  {
    ValueOfDecimal(x);
    ValueOfDecimal(y);
    assert ("-" + Decimal(x))[1..] == Decimal(x) && ("-" + Decimal(y))[1..] == Decimal(y);
    assert ("-" + Decimal(x))[0] == '-';
  }

  lemma NumbersPrintApart(a: int, b: int)
    ensures Sprint(Num(a)) == Sprint(Num(b)) ==> a == b
  {
    var x, y := if a < 0 then -a else a, if b < 0 then -b else b;
    DecimalsApart(x, y);
    DecimalsApart(y, x);
  }

  /** Two different IDs are tracked under one text exactly when one is a number and the other the
      string of its digits, which JSON-RPC tells apart. */
  lemma IDsCollideIff(a: ID, b: ID)
    ensures Sprint(a) == Sprint(b) <==>
      a == b || (a.Num? && b == Str(Sprint(a))) || (b.Num? && a == Str(Sprint(b)))
  {
    if a.Num? && b.Num? {
      NumbersPrintApart(a.n, b.n);
    }
  }

  /** A message is left untracked exactly when it has no valid ID or its ID is the empty string. */
  lemma UntrackedIff(m: Message)
    ensures MessageID(m) == "" <==> m.id.None? || m.id == Some(Str(""))
  {
  }

  // ---- the IDs that writing tracks ----

  // Successful writes, requests and responses alike, one after the other.
  function WriteAll(t: Tracker, ms: seq<Message>, now: int): Tracker {
    if ms == [] then t
    else
      var u := WriteAll(t, ms[..|ms| - 1], now);
      var id := MessageID(ms[|ms| - 1]);
      if id != "" then Track(u, id, now) else u
  }

  function TextIDs(ms: seq<Message>): set<string> {
    set i | 0 <= i < |ms| && MessageID(ms[i]) != "" :: MessageID(ms[i])
  }

  // No two messages, of whatever kind and whoever chose the ID, are tracked under one text.
  predicate DistinctTexts(ms: seq<Message>) {
    forall i, j :: 0 <= i < j < |ms| && MessageID(ms[i]) != "" ==> MessageID(ms[i]) != MessageID(ms[j])
  }

  lemma TextIDsSnoc(ms: seq<Message>)
    requires ms != []
    ensures var n := |ms| - 1;
      var id := MessageID(ms[n]);
      && TextIDs(ms) == TextIDs(ms[..n]) + (if id != "" then {id} else {})
      && (DistinctTexts(ms) <==> DistinctTexts(ms[..n]) && id !in TextIDs(ms[..n]))
  {
    var n := |ms| - 1;
    assert ms == ms[..n] + [ms[n]];
  }

  lemma {:induction false} WriteAllKeeps(t: Tracker, ms: seq<Message>, now: int)
    requires AckSpec.Inv(t) && !t.closed
    ensures AckSpec.Inv(WriteAll(t, ms, now)) && !WriteAll(t, ms, now).closed
  {
    if ms != [] {
      WriteAllKeeps(t, ms[..|ms| - 1], now);
      TrackKeeps(WriteAll(t, ms[..|ms| - 1], now), MessageID(ms[|ms| - 1]), now);
    }
  }

  lemma {:induction false} WriteAllPending(t: Tracker, ms: seq<Message>, now: int)
    requires !t.closed
    ensures var u := WriteAll(t, ms, now);
      !u.closed && u.pending.Keys == t.pending.Keys + TextIDs(ms) && t.overwritten <= u.overwritten
  {
    if ms != [] {
      WriteAllPending(t, ms[..|ms| - 1], now);
      TextIDsSnoc(ms);
    }
  }

  /** Between answers, writing leaves every entry in place exactly when no message has the text ID of
      an entry that is pending, or of another of the messages. The IDs of responses are chosen by the
      peer, so a caller cannot keep to this by choosing its own IDs apart. */
  lemma {:induction false} WritesOverwriteIff(t: Tracker, ms: seq<Message>, now: int)
    requires AckSpec.Inv(t) && !t.closed
    ensures WriteAll(t, ms, now).overwritten == t.overwritten <==> DistinctTexts(ms) && TextIDs(ms) !! t.pending.Keys
  {
    if ms != [] {
      var n := |ms| - 1;
      var u, id := WriteAll(t, ms[..n], now), MessageID(ms[n]);
      WritesOverwriteIff(t, ms[..n], now);
      WriteAllKeeps(t, ms[..n], now);
      WriteAllPending(t, ms[..n], now);
      TextIDsSnoc(ms);
      if id != "" {
        TrackOverwrites(u, id, now);
        OneMoreText(t.pending.Keys, TextIDs(ms[..n]), id);
      }
    }
  }

  lemma OneMoreText(pending: set<string>, ids: set<string>, id: string)
    ensures (id !in ids && ids + {id} !! pending) <==> ids !! pending && id !in pending + ids
  {
  }

  lemma TrackOverwrites(t: Tracker, id: string, now: int)
    requires AckSpec.Inv(t) && !t.closed
    ensures t.overwritten <= Track(t, id, now).overwritten
    ensures Track(t, id, now).overwritten == t.overwritten <==> id !in t.pending
  {
  }

  // ---- receiving ----

  datatype Metrics = Metrics(sent: nat, received: nat, errors: nat, retries: nat, acked: nat, nacked: nat, timedOut: nat)

  // A decoded object, when it arrives, and whether a timer it stops could still be stopped.
  datatype Arrival = Arrival(msg: Message, now: int, stopped: bool)

  datatype Inbound = Object(arrival: Arrival) | Garbage(err: Error) | Failed(err: Error)

  datatype Link = Link(tracker: Tracker, metrics: Metrics, failures: int)

  predicate IsHeartbeat(m: Message) {
    m.Request? && m.verb == HEARTBEAT_METHOD
  }

  predicate IsSuccess(m: Message) { m.Response? && m.id.Some? && !m.failed }

  predicate IsFailure(m: Message) { m.Response? && m.id.Some? && m.failed }

  function InboundAck(c: Link, a: Arrival): Link {
    if IsFailure(a.msg) then
      c.(tracker := Answer(c.tracker, Sprint(a.msg.id.value), Nacked, a.now, a.stopped),
         metrics := c.metrics.(nacked := c.metrics.nacked + 1))
    else if IsSuccess(a.msg) then
      c.(tracker := Answer(c.tracker, Sprint(a.msg.id.value), Acked, a.now, a.stopped),
         metrics := c.metrics.(acked := c.metrics.acked + 1))
    else c
  }

  function Receive(c: Link, a: Arrival): Link {
    InboundAck(c.(metrics := c.metrics.(received := c.metrics.received + 1), failures := 0), a)
  }

  datatype ReadResult = Msg(msg: Message) | ReadError(err: Error)

  /** One Read over what will arrive. `interrupt(i)` is what the checks before object i find: a
      cancelled context or a closed connection. With nothing left to arrive, Read waits until its
      context is cancelled. */
  function Read(c: Link, items: seq<Inbound>, interrupt: nat -> Option<Error>, i: nat): (Link, seq<Inbound>, ReadResult)
    decreases items
  {
    if interrupt(i).Some? then (c, items, ReadError(interrupt(i).value))
    else if items == [] then (c, items, ReadError(ContextDone))
    else match items[0]
      case Object(a) =>
        if IsHeartbeat(a.msg) then Read(Receive(c, a), items[1..], interrupt, i + 1)
        else (Receive(c, a), items[1..], Msg(a.msg))
      case Garbage(err) => (c.(metrics := c.metrics.(errors := c.metrics.errors + 1)), items[1..], ReadError(err))
      case Failed(err) => (c, items[1..], ReadError(err))
  }

  const UNINTERRUPTED: nat -> Option<Error> := _ => None

  function Reads(c: Link, items: seq<Inbound>, n: nat): (Link, seq<Inbound>, seq<ReadResult>)
    decreases n
  {
    if n == 0 then (c, items, [])
    else
      var (c1, rest, r) := Read(c, items, UNINTERRUPTED, 0);
      var (c2, rest2, rs) := Reads(c1, rest, n - 1);
      (c2, rest2, [r] + rs)
  }

  // What the MCP layer should see.
  function Surfaced(items: seq<Inbound>): seq<ReadResult> {
    if items == [] then []
    else
      (if items[0].Object? && !IsHeartbeat(items[0].arrival.msg) then [Msg(items[0].arrival.msg)] else [])
      + Surfaced(items[1..])
  }

  function ReceiveAll(c: Link, items: seq<Inbound>): Link
    decreases items
  {
    if items == [] then c
    else ReceiveAll(if items[0].Object? then Receive(c, items[0].arrival) else c, items[1..])
  }

  predicate AllObjects(items: seq<Inbound>) {
    forall i :: 0 <= i < |items| ==> items[i].Object?
  }

  lemma {:induction false} ReadTakesFirst(c: Link, items: seq<Inbound>, i: nat) returns (k: nat)
    requires AllObjects(items) && Surfaced(items) != []
    ensures 0 < k <= |items|
    ensures Read(c, items, UNINTERRUPTED, i) == (ReceiveAll(c, items[..k]), items[k..], Surfaced(items)[0])
    ensures Surfaced(items[k..]) == Surfaced(items)[1..]
    decreases items
  {
    if IsHeartbeat(items[0].arrival.msg) {
      var j := ReadTakesFirst(Receive(c, items[0].arrival), items[1..], i + 1);
      k := j + 1;
      assert items[..k][1..] == items[1..][..j] && items[1..][j..] == items[k..];
    } else {
      k := 1;
      assert items[..1][1..] == [] && Surfaced(items) == [Msg(items[0].arrival.msg)] + Surfaced(items[1..]);
    }
  }

  lemma {:induction false} ReceiveAllJoins(c: Link, a: seq<Inbound>, b: seq<Inbound>)
    ensures ReceiveAll(c, a + b) == ReceiveAll(ReceiveAll(c, a), b)
    decreases a
  {
    if a == [] {
      assert a + b == b;
    } else {
      assert (a + b)[1..] == a[1..] + b;
      ReceiveAllJoins(if a[0].Object? then Receive(c, a[0].arrival) else c, a[1..], b);
    }
  }

  lemma ReceiveTwice(c: Link, items: seq<Inbound>, j: nat, m: nat)
    requires j + m <= |items|
    ensures ReceiveAll(ReceiveAll(c, items[..j]), items[j..][..m]) == ReceiveAll(c, items[..j + m])
    ensures items[j..][m..] == items[j + m..]
  {
    assert items[..j + m] == items[..j] + items[j..][..m];
    ReceiveAllJoins(c, items[..j], items[j..][..m]);
  }

  /** Successive Reads return the messages that are not heartbeats, each once and in order, and have
      taken in everything up to the last of them. */
  lemma {:induction false} ReadsAreFilter(c: Link, items: seq<Inbound>, n: nat) returns (k: nat)
    requires AllObjects(items) && n <= |Surfaced(items)|
    ensures k <= |items| && (n > 0 ==> k > 0)
    ensures Reads(c, items, n) == (ReceiveAll(c, items[..k]), items[k..], Surfaced(items)[..n])
    decreases n
  {
    if n == 0 {
      k := 0;
      assert items[..0] == [] && items[0..] == items;
    } else {
      var j := ReadTakesFirst(c, items, 0);
      var m := ReadsAreFilter(ReceiveAll(c, items[..j]), items[j..], n - 1);
      k := j + m;
      ReceiveTwice(c, items, j, m);
      assert Surfaced(items)[..n] == [Surfaced(items)[0]] + Surfaced(items)[1..][..n - 1];
    }
  }

  function CountOf(items: seq<Inbound>, p: Message -> bool): nat {
    if items == [] then 0
    else (if items[0].Object? && p(items[0].arrival.msg) then 1 else 0) + CountOf(items[1..], p)
  }

  /** Everything taken in counts as received and resets the failure counter; responses with a valid
      ID are counted once here. */
  lemma {:induction false} ReceiveAllCounts(c: Link, items: seq<Inbound>)
    requires AllObjects(items)
    ensures var d := ReceiveAll(c, items);
      && d.metrics.received == c.metrics.received + |items|
      && d.metrics.acked == c.metrics.acked + CountOf(items, IsSuccess)
      && d.metrics.nacked == c.metrics.nacked + CountOf(items, IsFailure)
      && (items != [] ==> d.failures == 0)
    decreases items
  {
    if items != [] {
      ReceiveAllCounts(Receive(c, items[0].arrival), items[1..]);
      if items[1..] == [] {
        assert ReceiveAll(c, items) == Receive(c, items[0].arrival);
      }
    }
  }

  // ---- counting acknowledgements: the connection and its waiting goroutines ----

  // What became of the goroutine that waits for one tracked message.
  datatype Watch = Waiting | Counted(status: Status) | Quit

  datatype Sys = Sys(link: Link, watch: seq<Watch>, done: bool, successes: nat, failures: nat)

  datatype Event =
    | Sent(id: string, now: int)          // a successful Write of a message with this text ID
    | Received(arrival: Arrival)
    | Fired(ch: nat, now: int)
    | Watched(ch: nat)                    // the goroutine receives from its channel
    | WatchEnded(ch: nat)                 // the goroutine sees the done channel closed instead
    | DoneCloses                          // Close closes the connection's done channel first,
    | CloseBegins                         // then closes the tracker
    | CloseDrains(now: int)

  function Tally(m: Metrics, status: Status): Metrics {
    match status
    case Acked => m.(acked := m.acked + 1)
    case Nacked => m.(nacked := m.nacked + 1)
    case TimedOut => m.(timedOut := m.timedOut + 1)
  }

  function Step(s: Sys, ev: Event): Sys {
    match ev
    case Sent(id, now) => s.(link := s.link.(tracker := Track(s.link.tracker, id, now)), watch := s.watch + [Waiting])
    case Received(a) =>
      s.(link := Receive(s.link, a),
         successes := s.successes + (if IsSuccess(a.msg) then 1 else 0),
         failures := s.failures + (if IsFailure(a.msg) then 1 else 0))
    case Fired(ch, now) => s.(link := s.link.(tracker := Fire(s.link.tracker, ch, now)))
    case Watched(ch) =>
      if ch < |s.watch| && s.watch[ch].Waiting? && Resolved(s.link.tracker, ch) then
        var status := s.link.tracker.chans[ch].sent[0].status;
        s.(watch := s.watch[ch := Counted(status)], link := s.link.(metrics := Tally(s.link.metrics, status)))
      else s
    case WatchEnded(ch) =>
      if ch < |s.watch| && s.watch[ch].Waiting? && s.done then s.(watch := s.watch[ch := Quit]) else s
    case DoneCloses => s.(done := true)
    case CloseBegins => s.(link := s.link.(tracker := CloseBegin(s.link.tracker)))
    case CloseDrains(now) => s.(link := s.link.(tracker := CloseDrain(s.link.tracker, now)))
  }

  function Init(timeout: int): Sys {
    Sys(Link(New(timeout), Metrics(0, 0, 0, 0, 0, 0, 0), 0), [], false, 0, 0)
  }

  function Run(s: Sys, evs: seq<Event>): Sys {
    if evs == [] then s else Step(Run(s, evs[..|evs| - 1]), evs[|evs| - 1])
  }

  ghost function CountedAs(s: Sys, status: Status): set<nat> {
    set ch: nat | ch < |s.watch| && s.watch[ch] == Counted(status)
  }

  ghost function ResolvedAs(t: Tracker, status: Status): set<nat> {
    set ch: nat | ch < |t.chans| && t.chans[ch].sent != [] && t.chans[ch].sent[0].status == status
  }

  ghost predicate SysInv(s: Sys) {
    && AckSpec.Inv(s.link.tracker)
    && |s.watch| == |s.link.tracker.chans|
    && (forall ch :: 0 <= ch < |s.watch| && s.watch[ch].Counted? ==> ch in ResolvedAs(s.link.tracker, s.watch[ch].status))
    && s.link.metrics.acked == s.successes + |CountedAs(s, Acked)|
    && s.link.metrics.nacked == s.failures + |CountedAs(s, Nacked)|
    && s.link.metrics.timedOut == |CountedAs(s, TimedOut)|
    && |ResolvedAs(s.link.tracker, Acked)| <= s.successes
  }

  // A tracker step resolves at most one more channel as Acked, and only an Ack does.
  lemma AnswerResolves(t: Tracker, id: string, status: Status, now: int, stopped: bool)
    requires AckSpec.Inv(t)
    ensures var u := Answer(t, id, status, now, stopped);
      && |u.chans| == |t.chans|
      && (forall st :: ResolvedAs(t, st) <= ResolvedAs(u, st))
      && |ResolvedAs(u, Acked)| <= |ResolvedAs(t, Acked)| + (if status == Acked then 1 else 0)
  {
    var u := Answer(t, id, status, now, stopped);
    if id in t.pending {
      var ch := t.pending[id].ch;
      assert ChanOk(t, ch) && IsPending(t, ch);
      assert u.chans[ch].sent == [AckMessage(id, status, now)];
      forall st ensures ResolvedAs(u, st) == ResolvedAs(t, st) + (if st == status then {ch} else {}) {
      }
    } else {
      assert u == t;
    }
  }

  lemma FireResolves(t: Tracker, ch: nat, now: int)
    requires AckSpec.Inv(t)
    ensures var u := Fire(t, ch, now);
      && |u.chans| == |t.chans|
      && (forall st :: ResolvedAs(t, st) <= ResolvedAs(u, st))
      && ResolvedAs(u, Acked) == ResolvedAs(t, Acked)
  {
    if ch in t.timers && now >= t.timers[ch].due && t.timers[ch].id in t.pending {
      var k := t.pending[t.timers[ch].id].ch;
      assert ChanOk(t, k) && IsPending(t, k);
      var u := Fire(t, ch, now);
      assert u.chans[k].sent == [AckMessage(t.timers[ch].id, TimedOut, now)];
      forall st ensures ResolvedAs(u, st) == ResolvedAs(t, st) + (if st == TimedOut then {k} else {}) {
      }
    }
  }

  lemma DrainResolves(t: Tracker, now: int)
    requires AckSpec.Inv(t)
    ensures var u := CloseDrain(t, now);
      && |u.chans| == |t.chans|
      && (forall st :: ResolvedAs(t, st) <= ResolvedAs(u, st))
      && ResolvedAs(u, Acked) == ResolvedAs(t, Acked)
  {
    var u := CloseDrain(t, now);
    forall ch | 0 <= ch < |t.chans|
      ensures u.chans[ch].sent == t.chans[ch].sent || (t.chans[ch].sent == [] && u.chans[ch].sent == [AckMessage(t.chans[ch].id, Nacked, now)])
    {
      assert ChanOk(t, ch);
    }
  }

  lemma TrackResolves(t: Tracker, id: string, now: int)
    ensures var u := Track(t, id, now);
      && |u.chans| == |t.chans| + 1
      && (forall st :: ResolvedAs(t, st) <= ResolvedAs(u, st))
      && ResolvedAs(u, Acked) == ResolvedAs(t, Acked)
  {
  }

  lemma WatchSame(s: Sys, t: Sys)
    requires SysInv(s) && AckSpec.Inv(t.link.tracker) && |t.watch| == |t.link.tracker.chans|
    requires forall st :: ResolvedAs(s.link.tracker, st) <= ResolvedAs(t.link.tracker, st)
    requires forall st :: CountedAs(t, st) == CountedAs(s, st)
    requires |ResolvedAs(t.link.tracker, Acked)| <= t.successes
    requires t.link.metrics.acked - t.successes == s.link.metrics.acked - s.successes
    requires t.link.metrics.nacked - t.failures == s.link.metrics.nacked - s.failures
    requires t.link.metrics.timedOut == s.link.metrics.timedOut
    ensures SysInv(t)
  {
    forall ch | 0 <= ch < |t.watch| && t.watch[ch].Counted?
      ensures ch in ResolvedAs(t.link.tracker, t.watch[ch].status)
    {
      assert ch in CountedAs(t, t.watch[ch].status);
    }
  }

  lemma WatchCounts(s: Sys, t: Sys, ch: nat, status: Status, st: Status)
    requires ch < |s.watch| && s.watch[ch].Waiting? && t.watch == s.watch[ch := Counted(status)]
    ensures |CountedAs(t, st)| == |CountedAs(s, st)| + (if st == status then 1 else 0)
  {
    assert CountedAs(t, st) == CountedAs(s, st) + (if st == status then {ch} else {});
    assert ch !in CountedAs(s, st);
  }

  lemma WatchedKeeps(s: Sys, ch: nat)
    requires SysInv(s) && ch < |s.watch| && s.watch[ch].Waiting? && Resolved(s.link.tracker, ch)
    ensures SysInv(Step(s, Watched(ch)))
  {
    var t, status := Step(s, Watched(ch)), s.link.tracker.chans[ch].sent[0].status;
    WatchCounts(s, t, ch, status, Acked);
    WatchCounts(s, t, ch, status, Nacked);
    WatchCounts(s, t, ch, status, TimedOut);
  }

  lemma ReceivedKeeps(s: Sys, a: Arrival)
    requires SysInv(s)
    ensures SysInv(Step(s, Received(a)))
  {
    if a.msg.Response? && a.msg.id.Some? {
      var status := if a.msg.failed then Nacked else Acked;
      AnswerKeeps(s.link.tracker, Sprint(a.msg.id.value), status, a.now, a.stopped);
      AnswerResolves(s.link.tracker, Sprint(a.msg.id.value), status, a.now, a.stopped);
    }
    WatchSame(s, Step(s, Received(a)));
  }

  lemma TrackerKeeps(s: Sys, ev: Event)
    requires SysInv(s) && (ev.Sent? || ev.Fired? || ev.CloseBegins? || ev.CloseDrains?)
    ensures SysInv(Step(s, ev))
  {
    var k := s.link.tracker;
    match ev {
      case Sent(id, now) =>
        TrackKeeps(k, id, now);
        TrackResolves(k, id, now);
      case Fired(ch, now) =>
        FireKeeps(k, ch, now);
        FireResolves(k, ch, now);
      case CloseBegins =>
        AckSpec.StepKeeps(k, EvCloseBegin);
      case CloseDrains(now) =>
        DrainKeeps(k, now);
        DrainResolves(k, now);
    }
    WatchSame(s, Step(s, ev));
  }

  lemma StepKeeps(s: Sys, ev: Event)
    requires SysInv(s)
    ensures SysInv(Step(s, ev))
  {
    match ev
    case Received(a) => ReceivedKeeps(s, a);
    case Watched(ch) =>
      if ch < |s.watch| && s.watch[ch].Waiting? && Resolved(s.link.tracker, ch) {
        WatchedKeeps(s, ch);
      }
    case WatchEnded(ch) => WatchSame(s, Step(s, ev));
    case DoneCloses => WatchSame(s, Step(s, ev));
    case _ => TrackerKeeps(s, ev);
  }

  lemma {:induction false} RunsKeep(timeout: int, evs: seq<Event>)
    ensures SysInv(Run(Init(timeout), evs))
  {
    if evs != [] {
      RunsKeep(timeout, evs[..|evs| - 1]);
      StepKeeps(Run(Init(timeout), evs[..|evs| - 1]), evs[|evs| - 1]);
    }
  }

  /** In every run, with r success responses carrying a valid ID, the acked counter is between r and
      2r: r for the responses themselves and one for each tracked message that its goroutine saw
      acknowledged. */
  lemma AckedBetween(timeout: int, evs: seq<Event>)
    ensures var s := Run(Init(timeout), evs);
      && s.successes <= s.link.metrics.acked <= 2 * s.successes
      && s.link.metrics.acked == s.successes + |CountedAs(s, Acked)|
      && CountedAs(s, Acked) <= ResolvedAs(s.link.tracker, Acked)
      && s.link.metrics.timedOut <= |s.link.tracker.chans|
  {
    var s := Run(Init(timeout), evs);
    RunsKeep(timeout, evs);
    SubsetSize(CountedAs(s, Acked), ResolvedAs(s.link.tracker, Acked));
    SubsetSize(CountedAs(s, TimedOut), Below(|s.watch|));
  }

  /** When no goroutine is waiting and none gave up, the second count is exactly the acknowledged
      messages. */
  lemma AckedWhenSettled(timeout: int, evs: seq<Event>)
    ensures var s := Run(Init(timeout), evs);
      (forall ch :: 0 <= ch < |s.watch| && Resolved(s.link.tracker, ch) ==> s.watch[ch].Counted?) ==>
        s.link.metrics.acked == s.successes + |ResolvedAs(s.link.tracker, Acked)|
  {
    var s := Run(Init(timeout), evs);
    RunsKeep(timeout, evs);
    if forall ch :: 0 <= ch < |s.watch| && Resolved(s.link.tracker, ch) ==> s.watch[ch].Counted? {
      forall ch | ch in ResolvedAs(s.link.tracker, Acked) ensures ch in CountedAs(s, Acked) {
        assert Resolved(s.link.tracker, ch);
        assert ch in ResolvedAs(s.link.tracker, s.watch[ch].status);
      }
      assert CountedAs(s, Acked) == ResolvedAs(s.link.tracker, Acked);
    }
  }
}
