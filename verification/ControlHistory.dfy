/** The control connection told by what arrives: where a Read stops, what a response does to the message
    it answers, and how often a run can count a message as refused. */
module ControlHistory {
  import opened Common
  import opened AckSpec
  import opened ControlSpec

  // ---- where a Read stops ----

  /** A Read takes in some heartbeats and stops at the first of: an interruption, the end of what
      arrives, a message that is not a heartbeat, an object that does not decode, or a failed read. */
  lemma {:induction false} ReadStops(c: Link, items: seq<Inbound>, interrupt: nat -> Option<Error>, i: nat) returns (k: nat)
    ensures k <= |items|
    ensures forall j :: 0 <= j < k ==> items[j].Object? && interrupt(i + j).None?
    ensures forall j :: 0 <= j < k ==> items[j].arrival.msg.Request? && items[j].arrival.msg.verb == HEARTBEAT_METHOD
    ensures var (d, rest, r) := ControlSpec.Read(c, items, interrupt, i);
      var taken := ReceiveAll(c, items[..k]);
      if interrupt(i + k).Some? then d == taken && rest == items[k..] && r == ReadError(interrupt(i + k).value)
      else if k == |items| then d == taken && rest == [] && r == ReadError(ContextDone)
      else
        && rest == items[k + 1..]
        && match items[k]
           case Object(a) => !(a.msg.Request? && a.msg.verb == HEARTBEAT_METHOD) && d == Receive(taken, a) && r == Msg(a.msg)
           case Garbage(err) => d == taken.(metrics := taken.metrics.(errors := taken.metrics.errors + 1)) && r == ReadError(err)
           case Failed(err) => d == taken && r == ReadError(err)
    decreases items
  {
    if interrupt(i).None? && items != [] && items[0].Object? && IsHeartbeat(items[0].arrival.msg) {
      var j := ReadStops(Receive(c, items[0].arrival), items[1..], interrupt, i + 1);
      k := j + 1;
      Shift(c, items, j);
      forall m | 0 <= m < k
        ensures items[m].Object? && interrupt(i + m).None? && IsHeartbeat(items[m].arrival.msg)
      {
        if m > 0 {
          assert items[m] == items[1..][m - 1] && interrupt(i + 1 + (m - 1)).None?;
        }
      }
    } else {
      k := 0;
      assert items[..0] == [] && items[0..] == items;
    }
  }

  lemma {:induction false} Shift(c: Link, items: seq<Inbound>, j: nat)
    requires items != [] && items[0].Object? && j <= |items| - 1
    ensures ReceiveAll(Receive(c, items[0].arrival), items[1..][..j]) == ReceiveAll(c, items[..j + 1])
    ensures items[1..][j..] == items[j + 1..]
    ensures j < |items| - 1 ==> items[1..][j + 1..] == items[j + 2..] && items[1..][j] == items[j + 1]
  {
    assert items[..j + 1][1..] == items[1..][..j];
  }

  /** Taking a message in counts it as received and resets the failure counter; a response with a valid ID
      is counted as acknowledged or refused; nothing else is counted. */
  lemma {:induction false} ReceiveCounts(c: Link, a: Arrival)
    ensures var m, d := c.metrics, Receive(c, a);
      var answers := a.msg.Response? && a.msg.id.Some?;
      && d.failures == 0
      && d.metrics == Metrics(m.sent, m.received + 1, m.errors, m.retries,
                              m.acked + (if answers && !a.msg.failed then 1 else 0),
                              m.nacked + (if answers && a.msg.failed then 1 else 0), m.timedOut)
      && (!answers ==> d.tracker == c.tracker)
  {
  }

  // ---- a response and the message it answers ----

  /** A response resolves the pending entry of its text ID, and says whether the request failed. */
  lemma {:induction false} ResponseResolves(c: Link, a: Arrival, h: nat)
    requires AckSpec.Inv(c.tracker) && IsPending(c.tracker, h)
    requires a.msg.Response? && a.msg.id.Some? && Sprint(a.msg.id.value) == c.tracker.chans[h].id
    ensures var u := Receive(c, a).tracker;
      && h < |u.chans| && u.chans[h].id == c.tracker.chans[h].id
      && u.chans[h].sent == [AckMessage(c.tracker.chans[h].id, if a.msg.failed then Nacked else Acked, a.now)]
      && u.pending == c.tracker.pending - {c.tracker.chans[h].id}
  {
    var t := c.tracker;
    assert ChanOk(t, h);
    assert t.chans[h].sent + [AckMessage(t.chans[h].id, if a.msg.failed then Nacked else Acked, a.now)]
        == [AckMessage(t.chans[h].id, if a.msg.failed then Nacked else Acked, a.now)];
  }

  /** A written message with a valid ID that is not the empty string is answered by the response that
      carries the same ID. */
  lemma {:induction false} WrittenIsAnswered(c: Link, m: Message, now: int, a: Arrival)
    requires AckSpec.Inv(c.tracker) && !c.tracker.closed && m.id.Some? && m.id != Some(Str(""))
    requires a.msg.Response? && a.msg.id == m.id
    ensures var t := WriteAll(c.tracker, [m], now);
      var h := |c.tracker.chans|;
      && |t.chans| == h + 1 && IsPending(t, h)
      && var u := Receive(c.(tracker := t), a).tracker;
         h < |u.chans| && |u.chans[h].sent| == 1 && u.chans[h].sent[0].status == (if a.msg.failed then Nacked else Acked)
  {
    UntrackedIff(m);
    var t := WriteAll(c.tracker, [m], now);
    assert [m][..0] == [] && WriteAll(c.tracker, [m][..0], now) == c.tracker;
    assert t == Track(c.tracker, MessageID(m), now);
    TrackKeeps(c.tracker, MessageID(m), now);
    ResponseResolves(c.(tracker := t), a, |c.tracker.chans|);
  }

  /** Some texts: numbers print in decimal, strings as they are. */
  lemma {:induction false} Texts(s: string)
    ensures Sprint(Num(7)) == "7" && Sprint(Num(-120)) == "-120" && Sprint(Str(s)) == s
  {
    assert Decimal(1) == ['1'] && Decimal(12) == ['1', '2'] && Decimal(120) == ['1', '2', '0'];
  }

  // ---- how often a message is counted as refused ----

  // Track calls that were nacked without an answer: by the drain, or because the tracker was closed.
  ghost function DroppedBy(s: Sys, ev: ControlSpec.Event): nat {
    match ev
    case CloseDrains(_) => if s.link.tracker.draining then |PendingChans(s.link.tracker)| else 0
    case Sent(_, _) => if s.link.tracker.closed then 1 else 0
    case _ => 0
  }

  ghost function Dropped(timeout: int, evs: seq<ControlSpec.Event>): nat {
    if evs == [] then 0
    else Dropped(timeout, evs[..|evs| - 1]) + DroppedBy(ControlSpec.Run(Init(timeout), evs[..|evs| - 1]), evs[|evs| - 1])
  }

  ghost function NackedChans(s: Sys): nat { |ResolvedAs(s.link.tracker, Nacked)| }

  lemma {:induction false} AnswerNacks(t: Tracker, id: string, status: Status, now: int, stopped: bool)
    requires AckSpec.Inv(t)
    ensures |ResolvedAs(Answer(t, id, status, now, stopped), Nacked)| <= |ResolvedAs(t, Nacked)| + if status == Nacked then 1 else 0
  {
    var u := Answer(t, id, status, now, stopped);
    if id in t.pending {
      var h := t.pending[id].ch;
      assert ChanOk(t, h) && IsPending(t, h);
      assert u.chans[h].sent == [AckMessage(id, status, now)];
      assert ResolvedAs(u, Nacked) == ResolvedAs(t, Nacked) + (if status == Nacked then {h} else {});
    }
  }

  lemma {:induction false} FireNacks(t: Tracker, k: nat, now: int)
    requires AckSpec.Inv(t)
    ensures ResolvedAs(Fire(t, k, now), Nacked) == ResolvedAs(t, Nacked)
  {
    if k in t.timers && now >= t.timers[k].due && t.timers[k].id in t.pending {
      var h := t.pending[t.timers[k].id].ch;
      assert ChanOk(t, h) && IsPending(t, h);
      assert Fire(t, k, now).chans[h].sent == [AckMessage(t.timers[k].id, TimedOut, now)];
    }
  }

  lemma {:induction false} DrainNacks(t: Tracker, now: int)
    requires AckSpec.Inv(t) && t.draining
    ensures ResolvedAs(CloseDrain(t, now), Nacked) == ResolvedAs(t, Nacked) + PendingChans(t)
  {
    var u := CloseDrain(t, now);
    forall h: nat | h < |t.chans|
      ensures u.chans[h].sent == if IsPending(t, h) then [AckMessage(t.chans[h].id, Nacked, now)] else t.chans[h].sent
    {
      assert ChanOk(t, h);
      assert [] + [AckMessage(t.chans[h].id, Nacked, now)] == [AckMessage(t.chans[h].id, Nacked, now)];
    }
  }

  lemma {:induction false} TrackNacks(t: Tracker, id: string, now: int)
    ensures ResolvedAs(Track(t, id, now), Nacked) == ResolvedAs(t, Nacked) + if t.closed then {|t.chans|} else {}
  {
  }

  lemma {:induction false} StepNacks(s: Sys, ev: ControlSpec.Event)
    requires AckSpec.Inv(s.link.tracker)
    ensures NackedChans(ControlSpec.Step(s, ev)) - ControlSpec.Step(s, ev).failures <= NackedChans(s) - s.failures + DroppedBy(s, ev)
  {
    var t := s.link.tracker;
    match ev
    case Sent(id, now) => TrackNacks(t, id, now);
    case Received(a) =>
      if a.msg.Response? && a.msg.id.Some? {
        AnswerNacks(t, Sprint(a.msg.id.value), if a.msg.failed then Nacked else Acked, a.now, a.stopped);
      }
    case Fired(k, now) => FireNacks(t, k, now);
    case CloseDrains(now) =>
      if t.draining {
        DrainNacks(t, now);
        UnionSize(ResolvedAs(t, Nacked), PendingChans(t));
      }
    case _ =>
  }

  lemma {:induction false} UnionSize(a: set<nat>, b: set<nat>)
    ensures |a + b| <= |a| + |b|
  {
    assert a + b == a + (b - a) && b == (b * a) + (b - a);
  }

  lemma {:induction false} NacksBounded(timeout: int, evs: seq<ControlSpec.Event>)
    ensures NackedChans(ControlSpec.Run(Init(timeout), evs)) <= ControlSpec.Run(Init(timeout), evs).failures + Dropped(timeout, evs)
  {
    if evs != [] {
      NacksBounded(timeout, evs[..|evs| - 1]);
      ControlSpec.RunsKeep(timeout, evs[..|evs| - 1]);
      StepNacks(ControlSpec.Run(Init(timeout), evs[..|evs| - 1]), evs[|evs| - 1]);
    }
  }

  /** In every run the refused counter is the failure responses plus one for each message whose goroutine
      saw it refused, and those are at most the failure responses and the messages that were dropped by
      closing. The timeout counter is what the goroutines saw time out. */
  lemma {:induction false} NackedBetween(timeout: int, evs: seq<ControlSpec.Event>)
    ensures var s := ControlSpec.Run(Init(timeout), evs);
      && s.failures <= s.link.metrics.nacked <= 2 * s.failures + Dropped(timeout, evs)
      && s.link.metrics.nacked == s.failures + |CountedAs(s, Nacked)|
      && CountedAs(s, Nacked) <= ResolvedAs(s.link.tracker, Nacked)
      && s.link.metrics.timedOut == |CountedAs(s, TimedOut)|
      && CountedAs(s, TimedOut) <= ResolvedAs(s.link.tracker, TimedOut)
  {
    var s := ControlSpec.Run(Init(timeout), evs);
    ControlSpec.RunsKeep(timeout, evs);
    NacksBounded(timeout, evs);
    SubsetSize(CountedAs(s, Nacked), ResolvedAs(s.link.tracker, Nacked));
  }

  // The responses of a run, by outcome.
  function Responses(evs: seq<ControlSpec.Event>, failed: bool): nat {
    if evs == [] then 0
    else
      var ev := evs[|evs| - 1];
      Responses(evs[..|evs| - 1], failed)
      + if ev.Received? && ev.arrival.msg.Response? && ev.arrival.msg.id.Some? && ev.arrival.msg.failed == failed then 1 else 0
  }

  /** The two numbers these bounds speak of are the responses with a valid ID that have arrived. */
  lemma {:induction false} ResponsesCounted(timeout: int, evs: seq<ControlSpec.Event>)
    ensures ControlSpec.Run(Init(timeout), evs).successes == Responses(evs, false)
    ensures ControlSpec.Run(Init(timeout), evs).failures == Responses(evs, true)
  {
    if evs != [] {
      ResponsesCounted(timeout, evs[..|evs| - 1]);
    }
  }
}
