/** The acknowledgment tracker as an object. Sending on a channel is a method whose precondition is
    that the send can neither block nor panic; every caller holds the mutex. */
module AckTracking {
  import opened AckSpec

  // The channels while Close walks the pending entries; `todo` are the IDs it has not reached yet.
  function DrainedBut(t: Tracker, todo: set<string>, now: int): seq<Chan> {
    seq(|t.chans|, ch requires 0 <= ch < |t.chans| =>
      if IsPending(t, ch) && t.chans[ch].id !in todo then Send(t.chans[ch], AckMessage(t.chans[ch].id, Nacked, now))
      else t.chans[ch])
  }

  lemma DrainOneMore(t: Tracker, todo: set<string>, id: string, now: int)
    requires Inv(t) && id in todo && id in t.pending
    ensures var ch, cs := t.pending[id].ch, DrainedBut(t, todo, now);
      && ch < |cs| && cs[ch].sent == [] && cs[ch].closes == 0
      && DrainedBut(t, todo - {id}, now) == cs[ch := cs[ch].(sent := [AckMessage(id, Nacked, now)], closes := 1)]
  {
    var ch := t.pending[id].ch;
    assert ChanOk(t, ch) && IsPending(t, ch);
    assert [] + [AckMessage(id, Nacked, now)] == [AckMessage(id, Nacked, now)];
  }

  lemma DrainEnds(t: Tracker, now: int)
    requires t.draining
    ensures DrainedBut(t, t.pending.Keys, now) == t.chans
    ensures DrainedBut(t, {}, now) == CloseDrain(t, now).chans
  {
  }

  class AckTracker {
    var pending: map<string, PendingAck>
    var chans: seq<Chan>
    var timers: map<nat, Timer>
    const timeout: int
    var closed: bool
    ghost var overwritten: set<nat>

    ghost function View(): Tracker
      reads this
    {
      Tracker(pending, chans, timers, timeout, closed, false, overwritten)
    }

    ghost predicate Valid()
      reads this
    {
      Inv(View())
    }

    constructor (timeout: int)
      ensures Valid() && View() == New(timeout)
    {
      pending, chans, timers, closed, overwritten := map[], [], map[], false, {};
      this.timeout := timeout;
    }

    // Send one message on a channel of capacity one.
    method SendMessage(ch: nat, m: AckMessage)
      requires ch < |chans| && chans[ch].sent == [] && chans[ch].closes == 0
      modifies this`chans
      ensures chans == old(chans)[ch := old(chans)[ch].(sent := [m])]
    {
      assert chans[ch].sent + [m] == [m];
      chans := chans[ch := chans[ch].(sent := chans[ch].sent + [m])];
    }

    // Close a channel that is still open.
    method CloseChan(ch: nat)
      requires ch < |chans| && chans[ch].closes == 0
      modifies this`chans
      ensures chans == old(chans)[ch := old(chans)[ch].(closes := 1)]
    {
      chans := chans[ch := chans[ch].(closes := chans[ch].closes + 1)];
    }

    method Track(messageID: string, now: int) returns (ch: nat)
      requires Valid()
      modifies this
      ensures Valid() && View() == AckSpec.Track(old(View()), messageID, now)
      ensures ch == |old(chans)|
    {
      TrackKeeps(View(), messageID, now);
      ch := |chans|;
      chans := chans + [Chan(messageID, now, [], 0)];
      if closed {
        SendMessage(ch, AckMessage(messageID, Nacked, now));
        assert View() == AckSpec.Track(old(View()), messageID, now);
        return;
      }
      var p := PendingAck(messageID, now, ch);
      timers := timers[ch := Timer(messageID, now + timeout)];
      overwritten := if messageID in pending then overwritten + {pending[messageID].ch} else overwritten;
      pending := pending[messageID := p];
    }

    method Ack(messageID: string, now: int, stopped: bool)
      requires Valid()
      modifies this
      ensures Valid() && View() == Answer(old(View()), messageID, Acked, now, stopped)
    {
      AnswerKeeps(View(), messageID, Acked, now, stopped);
      if messageID in pending {
        StopTimer(messageID, stopped);
        Finish(messageID, Acked, now);
      }
    }

    method Nack(messageID: string, now: int, stopped: bool)
      requires Valid()
      modifies this
      ensures Valid() && View() == Answer(old(View()), messageID, Nacked, now, stopped)
    {
      AnswerKeeps(View(), messageID, Nacked, now, stopped);
      if messageID in pending {
        StopTimer(messageID, stopped);
        Finish(messageID, Nacked, now);
      }
    }

    method StopTimer(messageID: string, stopped: bool)
      requires Valid() && messageID in pending
      modifies this`timers
      ensures Valid()
      ensures timers == if stopped then old(timers) - {pending[messageID].ch} else old(timers)
    {
      if stopped {
        SameChans(View(), View().(timers := timers - {pending[messageID].ch}));
        timers := timers - {pending[messageID].ch};
      }
    }

    // The timer of one Track call fires: it looks its message ID up again.
    method TimeoutAck(ch: nat, now: int)
      requires Valid() && ch in timers && now >= timers[ch].due
      modifies this
      ensures Valid() && View() == Fire(old(View()), ch, now)
    {
      FireKeeps(View(), ch, now);
      var messageID := timers[ch].id;
      SameChans(View(), View().(timers := timers - {ch}));
      timers := timers - {ch};
      if messageID in pending {
        Finish(messageID, TimedOut, now);
      }
    }

    method Finish(messageID: string, status: Status, now: int)
      requires Valid() && messageID in pending
      modifies this`chans, this`pending
      ensures View() == Resolve(old(View()), messageID, status, now)
    {
      var p := pending[messageID];
      assert ChanOk(View(), p.ch) && IsPending(View(), p.ch);
      assert [] + [AckMessage(messageID, status, now)] == [AckMessage(messageID, status, now)];
      SendMessage(p.ch, AckMessage(messageID, status, now));
      CloseChan(p.ch);
      pending := pending - {messageID};
    }

    method Close(now: int)
      requires Valid()
      modifies this`pending, this`chans, this`closed
      ensures Valid() && closed && View() == CloseDrain(CloseBegin(old(View())), now)
    {
      ghost var before := View();
      StepKeeps(before, EvCloseBegin);
      DrainKeeps(CloseBegin(before), now);
      if closed {
        return;
      }
      closed := true;
      ghost var t := CloseBegin(before);
      DrainEnds(t, now);
      var todo := pending.Keys;
      while todo != {}
        invariant todo <= t.pending.Keys && pending == t.pending && closed
        invariant chans == DrainedBut(t, todo, now)
        decreases todo
      {
        var id :| id in todo;
        DrainOneMore(t, todo, id, now);
        SendMessage(pending[id].ch, AckMessage(id, Nacked, now));
        CloseChan(pending[id].ch);
        todo := todo - {id};
      }
      pending := map[];
    }

    method PendingCount() returns (n: nat)
      requires Valid()
      ensures n == |PendingChans(View())|
    {
      PendingChansSize(View());
      n := |pending|;
    }
  }
}
