/** The acknowledgment tracker on values: every interleaving of Track, Ack, Nack, timers and Close. */
module AckSpec {
  import opened Common

  datatype Status = Acked | Nacked | TimedOut

  datatype AckMessage = AckMessage(id: string, status: Status, at: int)

  // The channel one Track call returns: capacity one, with everything ever sent on it.
  datatype Chan = Chan(id: string, since: int, sent: seq<AckMessage>, closes: nat)

  datatype PendingAck = PendingAck(id: string, timestamp: int, ch: nat)

  // A timer belongs to the Track call that started it but only knows the message ID.
  datatype Timer = Timer(id: string, due: int)

  datatype Tracker = Tracker(
    pending: map<string, PendingAck>,
    chans: seq<Chan>,            // in the order of the Track calls
    timers: map<nat, Timer>,     // timers that may still fire, by Track call
    timeout: int,
    closed: bool,
    draining: bool,              // Close has set `closed` and has not yet taken the mutex
    overwritten: set<nat>)       // Track calls whose entry another Track replaced

  function New(timeout: int): Tracker {
    Tracker(map[], [], map[], timeout, false, false, {})
  }

  // ---- the locked sections ----

  function Track(t: Tracker, id: string, now: int): Tracker {
    var ch := |t.chans|;
    if t.closed then t.(chans := t.chans + [Chan(id, now, [AckMessage(id, Nacked, now)], 0)])
    else t.(chans := t.chans + [Chan(id, now, [], 0)],
            timers := t.timers[ch := Timer(id, now + t.timeout)],
            pending := t.pending[id := PendingAck(id, now, ch)],
            overwritten := if id in t.pending then t.overwritten + {t.pending[id].ch} else t.overwritten)
  }

  function Send(c: Chan, m: AckMessage): Chan {
    c.(sent := c.sent + [m], closes := c.closes + 1)
  }

  function Resolve(t: Tracker, id: string, status: Status, now: int): Tracker {
    if id in t.pending && t.pending[id].ch < |t.chans| then
      var ch := t.pending[id].ch;
      t.(chans := t.chans[ch := Send(t.chans[ch], AckMessage(id, status, now))], pending := t.pending - {id})
    else t
  }

  // Ack and Nack stop the entry's timer; a timer that has already fired cannot be stopped.
  function Answer(t: Tracker, id: string, status: Status, now: int, stopped: bool): Tracker {
    if id in t.pending && stopped then Resolve(t.(timers := t.timers - {t.pending[id].ch}), id, status, now)
    else Resolve(t, id, status, now)
  }

  function Fire(t: Tracker, ch: nat, now: int): Tracker {
    if ch in t.timers && now >= t.timers[ch].due then
      Resolve(t.(timers := t.timers - {ch}), t.timers[ch].id, TimedOut, now)
    else t
  }

  function CloseBegin(t: Tracker): Tracker {
    if t.closed then t else t.(closed := true, draining := true)
  }

  predicate IsPending(t: Tracker, ch: nat) {
    ch < |t.chans| && t.chans[ch].id in t.pending && t.pending[t.chans[ch].id].ch == ch
  }

  function CloseDrain(t: Tracker, now: int): Tracker {
    if !t.draining then t
    else t.(draining := false, pending := map[],
            chans := seq(|t.chans|, ch requires 0 <= ch < |t.chans| =>
              if IsPending(t, ch) then Send(t.chans[ch], AckMessage(t.chans[ch].id, Nacked, now)) else t.chans[ch]))
  }

  datatype Event =
    | EvTrack(id: string, now: int)
    | EvAck(id: string, now: int, stopped: bool)
    | EvNack(id: string, now: int, stopped: bool)
    | EvFire(ch: nat, now: int)
    | EvCloseBegin
    | EvCloseDrain(now: int)

  function Step(t: Tracker, ev: Event): Tracker {
    match ev
    case EvTrack(id, now) => Track(t, id, now)
    case EvAck(id, now, stopped) => Answer(t, id, Acked, now, stopped)
    case EvNack(id, now, stopped) => Answer(t, id, Nacked, now, stopped)
    case EvFire(ch, now) => Fire(t, ch, now)
    case EvCloseBegin => CloseBegin(t)
    case EvCloseDrain(now) => CloseDrain(t, now)
  }

  function Run(t: Tracker, evs: seq<Event>): Tracker {
    if evs == [] then t else Step(Run(t, evs[..|evs| - 1]), evs[|evs| - 1])
  }

  // ---- the invariant ----

  predicate Resolved(t: Tracker, ch: nat) {
    ch < |t.chans| && t.chans[ch].sent != []
  }

  // The message blames a timeout that some Track of the same ID had waited out.
  ghost predicate TimeoutExplained(t: Tracker, ch: nat)
    requires ch < |t.chans|
  {
    forall m :: m in t.chans[ch].sent && m.status == TimedOut ==>
      exists k :: 0 <= k < |t.chans| && t.chans[k].id == t.chans[ch].id && m.at >= t.chans[k].since + t.timeout
  }

  ghost predicate Inv(t: Tracker) {
    && (forall id :: id in t.pending ==>
          var p := t.pending[id];
          p.ch < |t.chans| && p.id == id && t.chans[p.ch].id == id && t.chans[p.ch].since == p.timestamp
          && p.ch !in t.overwritten)
    && (forall ch :: 0 <= ch < |t.chans| ==> ChanOk(t, ch))
    && (forall ch :: ch in t.overwritten ==> ch < |t.chans|)
    && (forall ch :: ch in t.timers ==>
          ch < |t.chans| && t.timers[ch] == Timer(t.chans[ch].id, t.chans[ch].since + t.timeout))
    && (t.draining ==> t.closed)
    && (t.closed && !t.draining ==> t.pending == map[])
  }

  ghost predicate ChanOk(t: Tracker, ch: nat)
    requires ch < |t.chans|
  {
    var c := t.chans[ch];
    && |c.sent| <= 1 && c.closes <= |c.sent|
    && (c.sent == [] <==> ch in t.overwritten || IsPending(t, ch))
    && TimeoutExplained(t, ch)
  }

  lemma TrackKeeps(t: Tracker, id: string, now: int)
    requires Inv(t)
    ensures Inv(Track(t, id, now))
  {
    var u, n := Track(t, id, now), |t.chans|;
    forall ch | 0 <= ch < n ensures ChanOk(u, ch) {
      TrackKeepsOld(t, id, now, ch);
    }
    assert ChanOk(u, n);
  }

  lemma TrackKeepsOld(t: Tracker, id: string, now: int, ch: nat)
    requires Inv(t) && ch < |t.chans|
    ensures ChanOk(Track(t, id, now), ch)
  {
    assert ChanOk(t, ch);
    ExplainedIn(t, Track(t, id, now), ch);
  }

  lemma ExplainedIn(t: Tracker, u: Tracker, ch: nat)
    requires ch < |t.chans| <= |u.chans| && u.chans[ch].sent == t.chans[ch].sent && u.timeout == t.timeout
    requires forall k :: 0 <= k < |t.chans| ==> u.chans[k].id == t.chans[k].id && u.chans[k].since == t.chans[k].since
    requires TimeoutExplained(t, ch)
    ensures TimeoutExplained(u, ch)
  {
    forall m | m in u.chans[ch].sent && m.status == TimedOut
      ensures exists k :: 0 <= k < |u.chans| && u.chans[k].id == u.chans[ch].id && m.at >= u.chans[k].since + u.timeout
    {
      var k :| 0 <= k < |t.chans| && t.chans[k].id == t.chans[ch].id && m.at >= t.chans[k].since + t.timeout;
      assert u.chans[k].id == u.chans[ch].id;
    }
  }

  lemma ResolveKeeps(t: Tracker, id: string, status: Status, now: int, due: nat)
    requires Inv(t)
    requires status == TimedOut ==> due < |t.chans| && t.chans[due].id == id && now >= t.chans[due].since + t.timeout
    ensures Inv(Resolve(t, id, status, now))
  {
    if id in t.pending {
      var u, hit := Resolve(t, id, status, now), t.pending[id].ch;
      assert ChanOk(t, hit) && IsPending(t, hit);
      forall ch | 0 <= ch < |t.chans| ensures ChanOk(u, ch) {
        assert ChanOk(t, ch);
        if ch != hit {
          ExplainedIn(t, u, ch);
        } else if status == TimedOut {
          assert u.chans[due].id == u.chans[ch].id && now >= u.chans[due].since + u.timeout;
        }
      }
    }
  }

  lemma DrainKeeps(t: Tracker, now: int)
    requires Inv(t)
    ensures Inv(CloseDrain(t, now))
  {
    var u := CloseDrain(t, now);
    forall ch | 0 <= ch < |t.chans| ensures ChanOk(u, ch) {
      assert ChanOk(t, ch);
      if !(t.draining && IsPending(t, ch)) {
        ExplainedIn(t, u, ch);
      }
    }
  }

  lemma StepKeeps(t: Tracker, ev: Event)
    requires Inv(t)
    ensures Inv(Step(t, ev))
  {
    match ev
    case EvTrack(id, now) => TrackKeeps(t, id, now);
    case EvAck(id, now, stopped) => AnswerKeeps(t, id, Acked, now, stopped);
    case EvNack(id, now, stopped) => AnswerKeeps(t, id, Nacked, now, stopped);
    case EvFire(ch, now) => FireKeeps(t, ch, now);
    case EvCloseBegin => SameChans(t, CloseBegin(t));
    case EvCloseDrain(now) => DrainKeeps(t, now);
  }

  lemma SameChans(t: Tracker, u: Tracker)
    requires Inv(t) && u.chans == t.chans && u.pending == t.pending && u.overwritten == t.overwritten
    requires u.timeout == t.timeout && u.timers.Keys <= t.timers.Keys
    requires forall ch :: ch in u.timers ==> u.timers[ch] == t.timers[ch]
    requires (u.draining ==> u.closed) && (u.closed && !u.draining ==> t.closed && !t.draining)
    ensures Inv(u)
  {
    forall ch | 0 <= ch < |u.chans| ensures ChanOk(u, ch) {
      assert ChanOk(t, ch);
      ExplainedIn(t, u, ch);
    }
  }

  lemma AnswerKeeps(t: Tracker, id: string, status: Status, now: int, stopped: bool)
    requires Inv(t) && status != TimedOut
    ensures Inv(Answer(t, id, status, now, stopped))
  {
    if id in t.pending && stopped {
      var u := t.(timers := t.timers - {t.pending[id].ch});
      SameChans(t, u);
      ResolveKeeps(u, id, status, now, 0);
    } else {
      ResolveKeeps(t, id, status, now, 0);
    }
  }

  lemma FireKeeps(t: Tracker, ch: nat, now: int)
    requires Inv(t)
    ensures Inv(Fire(t, ch, now))
  {
    if ch in t.timers && now >= t.timers[ch].due {
      var u := t.(timers := t.timers - {ch});
      SameChans(t, u);
      ResolveKeeps(u, t.timers[ch].id, TimedOut, now, ch);
    }
  }

  lemma {:induction false} RunsKeep(timeout: int, evs: seq<Event>)
    ensures Inv(Run(New(timeout), evs))
  {
    if evs != [] {
      RunsKeep(timeout, evs[..|evs| - 1]);
      StepKeeps(Run(New(timeout), evs[..|evs| - 1]), evs[|evs| - 1]);
    }
  }

  // ---- what it means ----

  /** In every run each channel receives at most one message, is closed at most once and only after
      it, and what is pending has an empty open channel: no send under the mutex can block or panic. */
  lemma {:induction false} AtMostOnce(timeout: int, evs: seq<Event>)
    ensures var t := Run(New(timeout), evs);
      && (forall ch :: 0 <= ch < |t.chans| ==> |t.chans[ch].sent| <= 1 && t.chans[ch].closes <= |t.chans[ch].sent|)
      && (forall id :: id in t.pending ==>
            var ch := t.pending[id].ch;
            ch < |t.chans| && t.chans[ch].id == id && t.chans[ch].sent == [] && t.chans[ch].closes == 0)
  {
    RunsKeep(timeout, evs);
    var t := Run(New(timeout), evs);
    forall ch | 0 <= ch < |t.chans| ensures |t.chans[ch].sent| <= 1 && t.chans[ch].closes <= |t.chans[ch].sent| {
      assert ChanOk(t, ch);
    }
    forall id | id in t.pending
      ensures var ch := t.pending[id].ch; t.chans[ch].sent == [] && t.chans[ch].closes == 0
    {
      assert ChanOk(t, t.pending[id].ch) && IsPending(t, t.pending[id].ch);
    }
  }

  ghost function ResolvedChans(t: Tracker): set<nat> { set ch: nat | ch < |t.chans| && Resolved(t, ch) }

  ghost function PendingChans(t: Tracker): set<nat> { set ch: nat | ch < |t.chans| && IsPending(t, ch) }

  ghost function ChansOf(t: Tracker, ids: set<string>): set<nat>
    requires ids <= t.pending.Keys
  {
    set id | id in ids :: t.pending[id].ch
  }

  lemma {:induction false} PendingSize(t: Tracker, ids: set<string>)
    requires ids <= t.pending.Keys
    requires forall id :: id in t.pending ==> t.pending[id].ch < |t.chans| && t.chans[t.pending[id].ch].id == id
    ensures |ChansOf(t, ids)| == |ids|
    decreases ids
  {
    if id :| id in ids {
      PendingSize(t, ids - {id});
      assert ChansOf(t, ids) == ChansOf(t, ids - {id}) + {t.pending[id].ch};
    }
  }

  lemma PendingChansSize(t: Tracker)
    requires Inv(t)
    ensures |PendingChans(t)| == |t.pending|
  {
    PendingSize(t, t.pending.Keys);
    assert PendingChans(t) == ChansOf(t, t.pending.Keys);
  }

  lemma Partitioned(t: Tracker)
    requires Inv(t)
    ensures Below(|t.chans|) == PendingChans(t) + ResolvedChans(t) + t.overwritten
    ensures PendingChans(t) !! ResolvedChans(t) && ResolvedChans(t) !! t.overwritten && PendingChans(t) !! t.overwritten
  {
    forall ch: nat | ch < |t.chans| ensures Resolved(t, ch) <==> ch !in t.overwritten && !IsPending(t, ch) {
      assert ChanOk(t, ch);
    }
  }

  /** Every Track call is pending, resolved or overwritten, and only one of these. */
  lemma TracksAccounted(timeout: int, evs: seq<Event>)
    ensures var t := Run(New(timeout), evs);
      |t.chans| == |t.pending| + |ResolvedChans(t)| + |t.overwritten|
  {
    RunsKeep(timeout, evs);
    var t := Run(New(timeout), evs);
    Partitioned(t);
    PendingChansSize(t);
    Disjoint3(PendingChans(t), ResolvedChans(t), t.overwritten);
  }

  lemma Disjoint3(a: set<nat>, b: set<nat>, c: set<nat>)
    requires a !! b && b !! c && a !! c
    ensures |a + b + c| == |a| + |b| + |c|
  {
  }

  /** Once Close has drained the tracker, nothing is pending in any continuation of the run, and
      exactly the overwritten Track calls stay unresolved. */
  lemma {:induction false} NothingPendingAfterClose(timeout: int, evs: seq<Event>, more: seq<Event>)
    requires Run(New(timeout), evs).closed && !Run(New(timeout), evs).draining
    ensures var t := Run(New(timeout), evs + more);
      && t.closed && !t.draining && t.pending == map[]
      && forall ch :: 0 <= ch < |t.chans| ==> (|t.chans[ch].sent| == 1 <==> ch !in t.overwritten)
  {
    RunsKeep(timeout, evs + more);
    var t := Run(New(timeout), evs + more);
    if more != [] {
      NothingPendingAfterClose(timeout, evs, more[..|more| - 1]);
      assert (evs + more)[..|evs + more| - 1] == evs + more[..|more| - 1];
      assert (evs + more)[|evs + more| - 1] == more[|more| - 1];
    } else {
      assert evs + more == evs;
    }
    forall ch | 0 <= ch < |t.chans| ensures |t.chans[ch].sent| == 1 <==> ch !in t.overwritten {
      assert ChanOk(t, ch) && !IsPending(t, ch);
    }
  }

  /** A Timeout status is justified by the Track that started the timer: its own, if the ID was
      used once. */
  lemma TimeoutsAreJustified(timeout: int, evs: seq<Event>, ch: nat)
    ensures var t := Run(New(timeout), evs);
      ch < |t.chans| && t.chans[ch].sent != [] && t.chans[ch].sent[0].status == TimedOut ==>
        && (exists k :: 0 <= k < |t.chans| && t.chans[k].id == t.chans[ch].id && t.chans[ch].sent[0].at >= t.chans[k].since + timeout)
        && ((forall k :: 0 <= k < |t.chans| && t.chans[k].id == t.chans[ch].id ==> k == ch) ==>
              t.chans[ch].sent[0].at - t.chans[ch].since >= timeout)
  {
    RunsKeep(timeout, evs);
    TimeoutFixed(New(timeout), evs);
    var t := Run(New(timeout), evs);
    if ch < |t.chans| && t.chans[ch].sent != [] && t.chans[ch].sent[0].status == TimedOut {
      assert ChanOk(t, ch);
      var m := t.chans[ch].sent[0];
      var k :| 0 <= k < |t.chans| && t.chans[k].id == t.chans[ch].id && m.at >= t.chans[k].since + t.timeout;
    }
  }

  lemma {:induction false} TimeoutFixed(t: Tracker, evs: seq<Event>)
    ensures Run(t, evs).timeout == t.timeout
  {
    if evs != [] {
      TimeoutFixed(t, evs[..|evs| - 1]);
    }
  }

  /** Without the once-per-ID condition it fails: a timer started for one Track resolves a later
      Track of the same ID before its time, and the first is never resolved. */
  lemma ReusedIDTimesOutEarly(id: string, timeout: int)
    requires timeout > 1
    ensures var t := Run(New(timeout), [EvTrack(id, 0), EvTrack(id, timeout - 1), EvFire(0, timeout)]);
      && |t.chans| == 2 && t.chans[0].sent == [] && t.pending == map[]
      && t.chans[1].sent == [AckMessage(id, TimedOut, timeout)] && timeout - t.chans[1].since < timeout
  {
    var evs := [EvTrack(id, 0), EvTrack(id, timeout - 1), EvFire(0, timeout)];
    var t0 := New(timeout);
    var t1 := Track(t0, id, 0);
    var t2 := Track(t1, id, timeout - 1);
    assert evs[..2][..1][..0] == [] && Run(t0, []) == t0;
    assert evs[..2][..1] == [evs[0]] && Run(t0, evs[..2][..1]) == t1;
    assert evs[..2] == [evs[0], evs[1]] && Run(t0, evs[..2]) == t2;
    assert Run(t0, evs) == Fire(t2, 0, timeout);
  }

  predicate TrackedIn(evs: seq<Event>, id: string) {
    exists j :: 0 <= j < |evs| && evs[j].EvTrack? && evs[j].id == id
  }

  /** What is pending was tracked by one of the events so far. */
  lemma {:induction false} PendingWasTracked(timeout: int, evs: seq<Event>, id: string)
    ensures id in Run(New(timeout), evs).pending ==> TrackedIn(evs, id)
  {
    if evs != [] && id in Run(New(timeout), evs).pending {
      var n := |evs| - 1;
      PendingWasTracked(timeout, evs[..n], id);
      if id in Run(New(timeout), evs[..n]).pending {
        var j :| 0 <= j < n && evs[..n][j].EvTrack? && evs[..n][j].id == id;
        assert evs[j].EvTrack? && evs[j].id == id;
      } else {
        assert evs[n].EvTrack? && evs[n].id == id;
      }
    }
  }

  /** If no Track reuses an ID, nothing is ever overwritten: every Track is resolved exactly once after
      the drain, and timeouts are its own. */
  lemma {:induction false} DistinctIDsNeverOverwrite(timeout: int, evs: seq<Event>)
    requires forall j, k :: 0 <= j < k < |evs| && evs[j].EvTrack? && evs[k].EvTrack? ==> evs[j].id != evs[k].id
    ensures Run(New(timeout), evs).overwritten == {}
  {
    if evs != [] {
      var n := |evs| - 1;
      DistinctIDsNeverOverwrite(timeout, evs[..n]);
      if evs[n].EvTrack? {
        PendingWasTracked(timeout, evs[..n], evs[n].id);
        assert !TrackedIn(evs[..n], evs[n].id);
      }
    }
  }
}
