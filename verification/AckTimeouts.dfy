/** Reusing message IDs: when a Track call can be timed out before its time, and when one is never
    resolved. */
module AckTimeouts {
  import opened AckSpec

  // ---- early timeouts ----

  function Due(t: Tracker, h: nat): int
    requires h < |t.chans|
  {
    t.chans[h].since + t.timeout
  }

  // The message on channel h is a Timeout that came before its Track call had waited the full time.
  predicate EarlyAt(t: Tracker, h: nat) {
    h < |t.chans| && t.chans[h].sent != [] && t.chans[h].sent[0].status == TimedOut && t.chans[h].sent[0].at < Due(t, h)
  }

  /** When a timer resolves a pending channel, that is early exactly when the timer belongs to another
      Track call of the same ID and the channel's own time has not come. */
  lemma FireIsEarlyIff(t: Tracker, k: nat, h: nat, now: int)
    requires Inv(t) && IsPending(t, h)
    requires k in t.timers && t.timers[k].id == t.chans[h].id && now >= t.timers[k].due
    ensures Fire(t, k, now).chans[h].sent == [AckMessage(t.chans[h].id, TimedOut, now)]
    ensures EarlyAt(Fire(t, k, now), h) <==> k != h && now < Due(t, h)
  {
    assert ChanOk(t, h);
    assert t.chans[h].sent + [AckMessage(t.chans[h].id, TimedOut, now)] == [AckMessage(t.chans[h].id, TimedOut, now)];
  }

  // Timer k runs for the ID of channel h and is due before that channel's own time.
  predicate StaleTimer(t: Tracker, h: nat, k: nat)
    requires h < |t.chans|
  {
    k in t.timers && t.timers[k].id == t.chans[h].id && t.timers[k].due < Due(t, h)
  }

  // Nothing happens before this time.
  predicate NotBefore(evs: seq<Event>, clock: int) {
    forall i :: 0 <= i < |evs| ==> evs[i].EvCloseBegin? || evs[i].now >= clock
  }

  // From t on, channel h is pending still, with no timer of its ID that t does not have; or it is
  // not, and if it has been timed out early then a stale timer did it.
  ghost predicate Follows(t: Tracker, u: Tracker, h: nat, clock: int)
    requires h < |t.chans|
  {
    && h < |u.chans| && u.timeout == t.timeout
    && u.chans[h].id == t.chans[h].id && u.chans[h].since == t.chans[h].since
    && (IsPending(u, h) ==> forall k :: k in u.timers && u.timers[k].id == t.chans[h].id ==>
          k in t.timers && t.timers[k] == u.timers[k])
    && (EarlyAt(u, h) ==> clock < Due(t, h) && exists k :: StaleTimer(t, h, k))
  }

  lemma SettledStays(u: Tracker, ev: Event, h: nat)
    requires Inv(u) && h < |u.chans| && !IsPending(u, h)
    ensures h < |Step(u, ev).chans| && !IsPending(Step(u, ev), h) && Step(u, ev).chans[h] == u.chans[h]
  {
    assert ChanOk(u, h);
  }

  // What one step can do to a pending channel.
  lemma PendingMoves(u: Tracker, ev: Event, h: nat)
    requires Inv(u) && h < |u.chans| && IsPending(u, h)
    ensures var v := Step(u, ev);
      && h < |v.chans| && v.chans[h].id == u.chans[h].id && v.chans[h].since == u.chans[h].since
      && (IsPending(v, h) ==> forall k :: k in v.timers && v.timers[k].id == u.chans[h].id ==>
            k in u.timers && u.timers[k] == v.timers[k])
  {
    if ev.EvTrack? && ev.id == u.chans[h].id && !u.closed {
      assert !IsPending(Step(u, ev), h);
    }
  }

  lemma EarlyMove(u: Tracker, ev: Event, h: nat)
    requires Inv(u) && h < |u.chans| && IsPending(u, h) && EarlyAt(Step(u, ev), h)
    ensures ev.EvFire? && StaleTimer(u, h, ev.ch) && ev.now < Due(u, h)
  {
    assert ChanOk(u, h);
  }

  lemma {:induction false} FollowsRuns(t: Tracker, more: seq<Event>, h: nat, clock: int)
    requires Inv(t) && h < |t.chans| && IsPending(t, h) && NotBefore(more, clock)
    ensures Inv(Run(t, more)) && Follows(t, Run(t, more), h, clock)
  {
    if more == [] {
      assert ChanOk(t, h);
    } else {
      var n := |more| - 1;
      FollowsRuns(t, more[..n], h, clock);
      StepKeeps(Run(t, more[..n]), more[n]);
      FollowsStep(t, Run(t, more[..n]), more[n], h, clock);
    }
  }

  lemma FollowsStep(t: Tracker, u: Tracker, ev: Event, h: nat, clock: int)
    requires h < |t.chans| && Inv(u) && Follows(t, u, h, clock) && (ev.EvCloseBegin? || ev.now >= clock)
    ensures Follows(t, Step(u, ev), h, clock)
  {
    if IsPending(u, h) {
      PendingMoves(u, ev, h);
      if EarlyAt(Step(u, ev), h) {
        EarlyMove(u, ev, h);
        assert StaleTimer(t, h, ev.ch);
      }
    } else {
      SettledStays(u, ev, h);
    }
  }

  /** A pending Track call can be timed out early, in some continuation that respects the clock,
      exactly when its time has not come and a timer of the same ID runs that is due before. */
  lemma CanTimeOutEarlyIff(t: Tracker, h: nat, clock: int)
    requires Inv(t) && h < |t.chans| && IsPending(t, h)
    ensures (exists more :: NotBefore(more, clock) && EarlyAt(Run(t, more), h)) <==>
              clock < Due(t, h) && exists k :: StaleTimer(t, h, k)
  {
    if clock < Due(t, h) && exists k :: StaleTimer(t, h, k) {
      var k: nat :| StaleTimer(t, h, k);
      var now := if clock < t.timers[k].due then t.timers[k].due else clock;
      var more := [EvFire(k, now)];
      assert more[..0] == [] && Run(t, more) == Fire(t, k, now);
      FireIsEarlyIff(t, k, h, now);
      assert h in t.timers ==> t.timers[h].due == Due(t, h);
      assert NotBefore(more, clock) && EarlyAt(Run(t, more), h);
    }
    forall more | NotBefore(more, clock) && EarlyAt(Run(t, more), h)
      ensures clock < Due(t, h) && exists k :: StaleTimer(t, h, k)
    {
      FollowsRuns(t, more, h, clock);
    }
  }

  /** So a Track call on an open tracker is safe from early timeouts exactly when no timer of an
      earlier Track of the same ID is still running that is due before its own (or nobody waits). */
  lemma TrackIsSafeIff(timeout: int, evs: seq<Event>, id: string, now: int)
    requires !Run(New(timeout), evs).closed
    ensures var t := Run(New(timeout), evs);
      var u, h := Track(t, id, now), |t.chans|;
      (forall more :: NotBefore(more, now) ==> !EarlyAt(Run(u, more), h)) <==>
        timeout <= 0 || forall k :: k in t.timers && t.timers[k].id == id ==> t.timers[k].due >= now + timeout
  {
    var t := Run(New(timeout), evs);
    var u, h := Track(t, id, now), |t.chans|;
    RunsKeep(timeout, evs);
    TimeoutFixed(New(timeout), evs);
    TrackKeeps(t, id, now);
    assert IsPending(u, h) && Due(u, h) == now + timeout;
    CanTimeOutEarlyIff(u, h, now);
    forall k: nat ensures StaleTimer(u, h, k) <==> k in t.timers && t.timers[k].id == id && t.timers[k].due < now + timeout {
      assert u.timers[h].due == now + timeout;
    }
  }

  // ---- overwritten entries ----

  // No Track call finds its ID pending.
  ghost predicate NoLiveReuse(timeout: int, evs: seq<Event>) {
    forall n :: 0 <= n < |evs| ==> !Reuses(Run(New(timeout), evs[..n]), evs[n])
  }

  predicate Reuses(t: Tracker, ev: Event) {
    ev.EvTrack? && !t.closed && ev.id in t.pending
  }

  lemma StepOverwrites(t: Tracker, ev: Event)
    ensures Step(t, ev).overwritten == {} <==> t.overwritten == {} && !Reuses(t, ev)
  {
  }

  lemma NoLiveReuseSnoc(timeout: int, evs: seq<Event>)
    requires evs != []
    ensures var n := |evs| - 1;
      NoLiveReuse(timeout, evs) <==> NoLiveReuse(timeout, evs[..n]) && !Reuses(Run(New(timeout), evs[..n]), evs[n])
  {
    var n := |evs| - 1;
    assert forall m :: 0 <= m <= n ==> evs[..n][..m] == evs[..m];
    if NoLiveReuse(timeout, evs[..n]) && !Reuses(Run(New(timeout), evs[..n]), evs[n]) {
      forall m | 0 <= m < |evs| ensures !Reuses(Run(New(timeout), evs[..m]), evs[m]) {
        if m < n {
          assert !Reuses(Run(New(timeout), evs[..n][..m]), evs[..n][m]);
        }
      }
    }
    if NoLiveReuse(timeout, evs) {
      forall m | 0 <= m < n ensures !Reuses(Run(New(timeout), evs[..n][..m]), evs[..n][m]) {
        assert !Reuses(Run(New(timeout), evs[..m]), evs[m]);
      }
    }
  }

  /** An entry is overwritten exactly when some Track call finds its own ID pending. */
  lemma {:induction false} OverwrittenIff(timeout: int, evs: seq<Event>)
    ensures Run(New(timeout), evs).overwritten == {} <==> NoLiveReuse(timeout, evs)
  {
    if evs != [] {
      var n := |evs| - 1;
      OverwrittenIff(timeout, evs[..n]);
      StepOverwrites(Run(New(timeout), evs[..n]), evs[n]);
      NoLiveReuseSnoc(timeout, evs);
    }
  }

  /** Once Close has drained the tracker, every Track call has been resolved exactly once if and only if
      none of them found its ID pending. */
  lemma AllResolvedIff(timeout: int, evs: seq<Event>)
    requires Run(New(timeout), evs).closed && !Run(New(timeout), evs).draining
    ensures var t := Run(New(timeout), evs);
      (forall h :: 0 <= h < |t.chans| ==> |t.chans[h].sent| == 1) <==> NoLiveReuse(timeout, evs)
  {
    var t := Run(New(timeout), evs);
    RunsKeep(timeout, evs);
    OverwrittenIff(timeout, evs);
    assert evs + [] == evs;
    NothingPendingAfterClose(timeout, evs, []);
    if h :| h in t.overwritten {
      assert h < |t.chans| && |t.chans[h].sent| != 1;
    }
  }
}
