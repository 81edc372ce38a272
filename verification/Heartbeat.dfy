/** The heartbeat as an object over its atomic fields. */
module Heartbeating {
  import opened HeartbeatSpec

  class Heartbeat {
    const maxFailures: int
    const interval: int
    var running: bool
    var failures: int
    var lastPong: int
    ghost var contacts: seq<int>  // the times at which the peer was heard of, since the last start
    ghost var timeouts: nat       // OnTimeout calls so far
    ghost var reconnects: nat     // OnReconnect calls so far
    ghost var closed: bool        // OnTimeout has closed the control connection

    ghost function View(): Beat
      reads this
    {
      Beat(failures, timeouts, reconnects, closed)
    }

    ghost predicate Valid()
      reads this
    {
      (running ==> contacts != []) && (contacts != [] ==> lastPong == contacts[|contacts| - 1])
    }

    constructor (maxFailures: int, interval: int)
      ensures Valid() && View() == START && !running && contacts == []
      ensures this.maxFailures == maxFailures && this.interval == interval
    {
      this.maxFailures, this.interval := maxFailures, interval;
      running, failures, lastPong, timeouts, reconnects, closed := false, 0, 0, 0, 0, false;
      contacts := [];
    }

    method Start(now: int)
      requires Valid()
      modifies this`running, this`failures, this`lastPong, this`contacts
      ensures Valid() && running && contacts == if old(running) then old(contacts) else [now]
      ensures old(running) ==> failures == old(failures) && lastPong == old(lastPong)
      ensures !old(running) ==> failures == 0 && lastPong == now
    {
      if running {
        return;
      }
      running := true;
      failures := 0;
      lastPong, contacts := now, [now];
    }

    method HandleSuccess(now: int)
      requires Valid()
      modifies this`failures, this`lastPong, this`contacts
      ensures Valid() && contacts == old(contacts) + [now]
      ensures View() == Step(maxFailures, old(View()), Success) && lastPong == now
    {
      failures := 0;
      lastPong, contacts := now, contacts + [now];
    }

    method RecordPong(now: int)
      requires Valid()
      modifies this`failures, this`lastPong, this`contacts
      ensures Valid() && contacts == old(contacts) + [now]
      ensures View() == Step(maxFailures, old(View()), Pong) && lastPong == now
    {
      lastPong, contacts := now, contacts + [now];
      failures := 0;
    }

    /** `pongBefore` and `pongAfter` say whether an inbound message resets the counter meanwhile;
        `closes` whether the control connection's OnTimeout calls Close. */
    method HandleFailure(pongBefore: bool, pongAfter: bool) returns (closes: bool)
      modifies this`failures, this`timeouts, this`reconnects, this`closed
      ensures View() == Step(maxFailures, old(View()), Failure(pongBefore, pongAfter))
      ensures closed == (old(closed) || closes)
    {
      failures := failures + 1;
      var mine := failures;
      if pongBefore {
        failures := 0;
      }
      closes := OnTimeout();
      if pongAfter {
        failures := 0;
      }
      if mine >= maxFailures {
        reconnects := reconnects + 1;
        failures := 0;
      }
    }

    // The callback newControlConn installs.
    method OnTimeout() returns (closes: bool)
      modifies this`timeouts, this`closed
      ensures timeouts == old(timeouts) + 1
      ensures closes <==> failures >= maxFailures
      ensures closed == (old(closed) || closes)
    {
      timeouts := timeouts + 1;
      closes := failures >= maxFailures;
      if closes {
        closed := true;
      }
    }

    /** Stop ends the loop; the second call does nothing. */
    method Stop() returns (cancelled: bool)
      requires Valid()
      modifies this`running
      ensures Valid() && !running && cancelled == old(running)
    {
      cancelled := running;
      running := false;
    }

    /** While it runs, it is healthy exactly when the peer was heard of within the last MaxFailures
        intervals, at whatever moment: by the start, a successful heartbeat or a message. */
    method IsHealthy(now: int) returns (r: bool)
      requires Valid()
      ensures r ==> running && HeardWithin(contacts, now, interval * maxFailures)
      ensures Rising(contacts) ==> (r <==> running && HeardWithin(contacts, now, interval * maxFailures))
      ensures !running ==> !r
      ensures running ==> (r <==> now - contacts[|contacts| - 1] < interval * maxFailures)
    {
      if !running {
        return false;
      }
      r := now - lastPong < interval * maxFailures;
    }
  }
}
