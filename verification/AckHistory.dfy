/** What becomes of each Track call, told by the events of the run: which event resolved it, with which
    status, and when. */
module AckHistory {
  import opened Common
  import opened AckSpec

  // ---- the channels are the Track calls ----

  function Tracks(evs: seq<Event>): seq<Event> {
    if evs == [] then []
    else Tracks(evs[..|evs| - 1]) + if evs[|evs| - 1].EvTrack? then [evs[|evs| - 1]] else []
  }

  lemma {:induction false} ChansStay(t: Tracker, ev: Event)
    ensures var u := Step(t, ev);
      && |u.chans| == |t.chans| + (if ev.EvTrack? then 1 else 0)
      && (forall h :: 0 <= h < |t.chans| ==> u.chans[h].id == t.chans[h].id && u.chans[h].since == t.chans[h].since)
      && (ev.EvTrack? ==> u.chans[|t.chans|].id == ev.id && u.chans[|t.chans|].since == ev.now)
  {
  }

  /** There is one channel for each Track call, in order, with its ID and its time. */
  lemma {:induction false} ChansAreTracks(timeout: int, evs: seq<Event>)
    ensures var t := Run(New(timeout), evs);
      |t.chans| == |Tracks(evs)| && forall h :: 0 <= h < |t.chans| ==>
        Tracks(evs)[h].EvTrack? && t.chans[h].id == Tracks(evs)[h].id && t.chans[h].since == Tracks(evs)[h].now
  {
    if evs != [] {
      ChansAreTracks(timeout, evs[..|evs| - 1]);
      ChansStay(Run(New(timeout), evs[..|evs| - 1]), evs[|evs| - 1]);
    }
  }

  /** A Track call on an open tracker is pending at once, whatever was pending under its ID, and its own
      timer runs for the whole timeout. */
  lemma {:induction false} TrackIsPending(timeout: int, evs: seq<Event>, id: string, now: int)
    requires !Run(New(timeout), evs).closed
    ensures var t := Run(New(timeout), evs);
      var u, h := Step(t, EvTrack(id, now)), |t.chans|;
      && IsPending(u, h) && u.chans[h] == Chan(id, now, [], 0)
      && h in u.timers && u.timers[h] == Timer(id, now + timeout)
      && forall k :: k in t.timers && k < h ==> k in u.timers && u.timers[k] == t.timers[k]
  {
    TimeoutFixed(New(timeout), evs);
  }

  // ---- which event resolves a channel ----

  // Event ev, in state t, is what gives channel h this status.
  ghost predicate Resolves(t: Tracker, ev: Event, h: nat, status: Status) {
    match ev
    case EvAck(id, _, _) => status == Acked && h < |t.chans| && t.chans[h].id == id && IsPending(t, h)
    case EvNack(id, _, _) => status == Nacked && h < |t.chans| && t.chans[h].id == id && IsPending(t, h)
    case EvFire(k, now) =>
      && status == TimedOut && h < |t.chans| && IsPending(t, h)
      && k in t.timers && t.timers[k].id == t.chans[h].id && now >= t.timers[k].due
    case EvTrack(_, _) => status == Nacked && t.closed && h == |t.chans|
    case EvCloseDrain(_) => status == Nacked && t.draining && h < |t.chans| && IsPending(t, h)
    case EvCloseBegin => false
  }

  ghost predicate ResolvedAt(timeout: int, evs: seq<Event>, n: nat, h: nat, status: Status, at: int) {
    n < |evs| && Resolves(Run(New(timeout), evs[..n]), evs[n], h, status) && !evs[n].EvCloseBegin? && evs[n].now == at
  }

  lemma {:induction false} StepResolves(t: Tracker, ev: Event, h: nat, status: Status)
    requires Inv(t) && Resolves(t, ev, h, status)
    ensures var u := Step(t, ev);
      && h < |u.chans| && u.chans[h].sent == [AckMessage(u.chans[h].id, status, ev.now)]
      && !IsPending(u, h) && (!ev.EvTrack? ==> u.chans[h].closes == 1)
  {
    if h < |t.chans| {
      assert ChanOk(t, h);
      assert t.chans[h].sent + [AckMessage(t.chans[h].id, status, ev.now)] == [AckMessage(t.chans[h].id, status, ev.now)];
    } else {
      StepKeeps(t, ev);
      assert ChanOk(Step(t, ev), h);
    }
  }

  lemma {:induction false} StepLeaves(t: Tracker, ev: Event, h: nat)
    requires Inv(t) && h < |Step(t, ev).chans|
    requires forall status :: !Resolves(t, ev, h, status)
    ensures if h < |t.chans| then Step(t, ev).chans[h] == t.chans[h] else Step(t, ev).chans[h].sent == []
  {
    assert !Resolves(t, ev, h, Acked) && !Resolves(t, ev, h, Nacked) && !Resolves(t, ev, h, TimedOut);
  }

  lemma {:induction false} SentStays(t: Tracker, ev: Event, h: nat)
    requires Inv(t) && h < |t.chans| && t.chans[h].sent != []
    ensures h < |Step(t, ev).chans| && Step(t, ev).chans[h] == t.chans[h]
    ensures forall status :: !Resolves(t, ev, h, status)
  {
    assert ChanOk(t, h) && !IsPending(t, h);
  }

  lemma {:induction false} ResolvedSnoc(timeout: int, evs: seq<Event>, h: nat, status: Status, at: int)
    requires evs != []
    ensures var n := |evs| - 1; var front := evs[..n];
      (exists k: nat :: ResolvedAt(timeout, evs, k, h, status, at)) <==>
        ResolvedAt(timeout, evs, n, h, status, at) || exists k: nat :: ResolvedAt(timeout, front, k, h, status, at)
  {
    var n := |evs| - 1;
    var front := evs[..n];
    forall k: nat | k < n ensures ResolvedAt(timeout, front, k, h, status, at) <==> ResolvedAt(timeout, evs, k, h, status, at) {
      assert front[..k] == evs[..k];
    }
  }

  /** A channel has received a message with this status and this time, and only it, exactly when there was
      an event of that time that resolves it so: an Ack or a Nack of its ID while it was the pending
      entry, a due timer of its ID, or, for Nacked, the drain or a Track on a closed tracker. */
  lemma {:induction false} ResolvedIff(timeout: int, evs: seq<Event>, h: nat, status: Status, at: int)
    ensures var t := Run(New(timeout), evs);
      (h < |t.chans| && t.chans[h].sent == [AckMessage(t.chans[h].id, status, at)]) <==>
        exists n: nat :: ResolvedAt(timeout, evs, n, h, status, at)
  {
    if evs != [] {
      var n := |evs| - 1;
      var t, u := Run(New(timeout), evs[..n]), Run(New(timeout), evs);
      RunsKeep(timeout, evs[..n]);
      ResolvedIff(timeout, evs[..n], h, status, at);
      ResolvedSnoc(timeout, evs, h, status, at);
      if h < |t.chans| && t.chans[h].sent != [] {
        SentStays(t, evs[n], h);
      } else if st :| Resolves(t, evs[n], h, st) {
        StepResolves(t, evs[n], h, st);
      } else if h < |u.chans| {
        StepLeaves(t, evs[n], h);
      }
    }
  }

  // ---- timers ----

  /** A pending channel always has its own timer running, due when it has waited the full time. */
  lemma {:induction false} PendingHasTimer(timeout: int, evs: seq<Event>, h: nat)
    ensures var t := Run(New(timeout), evs);
      IsPending(t, h) ==> h in t.timers && t.timers[h] == Timer(t.chans[h].id, t.chans[h].since + timeout)
  {
    if evs != [] {
      PendingHasTimer(timeout, evs[..|evs| - 1], h);
      RunsKeep(timeout, evs[..|evs| - 1]);
      TimeoutFixed(New(timeout), evs[..|evs| - 1]);
      var t, ev := Run(New(timeout), evs[..|evs| - 1]), evs[|evs| - 1];
      if IsPending(Step(t, ev), h) {
        ChansStay(t, ev);
        if h < |t.chans| {
          StillRuns(t, ev, h);
        }
      }
    }
  }

  lemma {:induction false} StillRuns(t: Tracker, ev: Event, h: nat)
    requires Inv(t) && h < |t.chans| && IsPending(Step(t, ev), h)
    ensures IsPending(t, h) && (h in t.timers ==> h in Step(t, ev).timers && Step(t, ev).timers[h] == t.timers[h])
  {
    assert ChanOk(t, h);
  }

  /** A timer that has fired does not fire again; one that is not due does nothing. */
  lemma {:induction false} TimersFireOnce(t: Tracker, k: nat, now: int)
    ensures k in t.timers && now >= t.timers[k].due ==> Fire(t, k, now).timers == t.timers - {k}
    ensures k !in t.timers || now < t.timers[k].due ==> Fire(t, k, now) == t
  {
  }

  /** Close sets `closed` before it drains, and the drain happens once. */
  lemma {:induction false} ClosesOnce(t: Tracker, now: int)
    requires Inv(t)
    ensures CloseBegin(t).closed && (CloseBegin(t).draining <==> t.draining || !t.closed)
    ensures t.draining ==> !CloseDrain(t, now).draining && CloseDrain(t, now).pending == map[]
    ensures !t.draining ==> CloseDrain(t, now) == t
  {
  }

  /** An answer whose timer could be stopped takes that timer out, and no other. */
  lemma {:induction false} AnswerStopsTimer(t: Tracker, id: string, status: Status, now: int, stopped: bool)
    requires Inv(t)
    ensures Answer(t, id, status, now, stopped).timers
         == if id in t.pending && stopped then t.timers - {t.pending[id].ch} else t.timers
    ensures Answer(t, id, status, now, stopped).pending == t.pending - {id}
  {
  }
}
