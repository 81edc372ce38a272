/** The control connection as an object: writing with retries, reading past heartbeats, closing once. */
module ControlConnection {
  import opened Common
  import opened AckTracking
  import opened Heartbeating
  import opened Retrying
  import opened TrackSpec
  import opened Tracks
  import opened ControlSpec
  import A = AckSpec
  import H = HeartbeatSpec

  // What the library answers to the attempts of one Write.
  datatype WriteEnv = WriteEnv(
    answers: nat -> Answers,
    doneBefore: nat -> bool,
    doneDuring: nat -> bool,
    random: nat -> real)

  // The environment Do runs in: an attempt returns what the track writer returns.
  function EnvOf(closed: bool, slot: Slot, env: WriteEnv): Env {
    Env((k: nat) => CallResult(Pen(closed, slot, 0, []), env.answers(k), 1), env.doneBefore, env.doneDuring, env.random)
  }

  class ControlConn {
    const ackTracker: AckTracker
    const heartbeat: Heartbeat
    const retry: Retry
    const send: PublisherSlot
    const write: TrackWriter
    var closed: bool
    var metrics: Metrics
    var inbox: seq<Inbound>        // what ReadObject will yield
    var active: int                // this connection's part of the active-connections gauge
    var hung: bool                 // CloseWithError has been called on the QUIC connection
    ghost var onCloseCalls: nat

    ghost predicate Consistent()
      reads this, ackTracker, heartbeat, write, send
    {
      && Writable() && heartbeat.Valid()
      && onCloseCalls == (if closed then 1 else 0)
      && active == (if closed then 0 else 1) && hung == closed
      && (closed ==> ackTracker.closed && !heartbeat.running && write.closed)
    }

    ghost predicate Valid()
      reads this, ackTracker, heartbeat, write, send
    {
      Consistent() && (heartbeat.closed ==> closed)
    }

    // What the attempts of a Write rely on.
    ghost predicate Writable()
      reads this, ackTracker, write, send
    {
      ackTracker.Valid() && write.slot == send && write.Valid()
    }

    ghost function View(): Link
      reads this, ackTracker, heartbeat
    {
      Link(ackTracker.View(), metrics, heartbeat.failures)
    }

    constructor (config: RetryConfig, send: PublisherSlot, now: int, inbox: seq<Inbound>)
      requires send.Valid()
      ensures Valid() && !closed && retry.config == config && this.send == send && this.inbox == inbox
      ensures fresh(ackTracker) && fresh(heartbeat) && fresh(write) && heartbeat.maxFailures == 3
      ensures write.View() == Pen(false, send.View(), 0, [])
      ensures View() == Link(A.New(5_000_000_000), Metrics(0, 0, 0, 0, 0, 0, 0), 0)
    {
      ackTracker := new AckTracker(5_000_000_000);
      heartbeat := new Heartbeat(3, 30_000_000_000);
      retry := new Retry(config);
      this.send := send;
      write := new TrackWriter(send);
      closed, hung, active, onCloseCalls := false, false, 1, 0;
      metrics := Metrics(0, 0, 0, 0, 0, 0, 0);
      this.inbox := inbox;
      new;
      heartbeat.Start(now);
    }

    /** Writes one message. `encoded` is the encoder's error and `data` what it made of the message.
        A nil result after at least one attempt means exactly one counted send and, for a valid ID
        other than the empty string, one Track of its text; every attempt that fails is an error, with
        one more when the whole write fails. The track writer has seen exactly the attempts. */
    method Write(msg: Message, data: Payload, encoded: Option<Error>, env: WriteEnv, now: int) returns (r: Option<Error>)
      requires Valid()
      modifies this`metrics, ackTracker, write`nextGroup, write`log
      ensures Valid() && closed == old(closed)
      ensures old(closed) ==> r == Some(ConnectionClosed)
      ensures !old(closed) && encoded.Some? ==> r == encoded
      ensures old(closed) || encoded.Some? ==> View() == old(View()) && write.View() == old(write.View())
      ensures !old(closed) && encoded.None? ==>
        var e := EnvOf(old(write.closed), old(send.View()), env);
        var n := Calls(retry.config, e);
        && r == Answer(retry.config, e)
        && write.View() == Attempted(old(write.View()), data, env.answers, n)
        && metrics == old(metrics).(
             sent := old(metrics).sent + (if r.None? && n > 0 then 1 else 0),
             retries := old(metrics).retries + (if n > 0 then n - 1 else 0),
             errors := old(metrics).errors + FailedCalls(e, n) + (if r.Some? then 1 else 0))
        && (ackTracker.View() ==
              if r.None? && n > 0 && msg.id.Some? && msg.id != Some(Str("")) then
                A.Track(old(ackTracker.View()), Sprint(msg.id.value), now)
              else old(ackTracker.View()))
        && (retry.config.maxAttempts >= 1 ==> n <= retry.config.maxAttempts && (r.None? ==> n > 0))
    {
      DoOutcome(retry.config, EnvOf(write.closed, send.View(), env));
      if closed {
        return Some(ConnectionClosed);
      }
      if encoded.Some? {
        return encoded;
      }
      FailedIs(retry.config, EnvOf(write.closed, send.View(), env));
      UntrackedIff(msg);
      r := Attempts(MessageID(msg), data, env, now);
      if r.Some? {
        metrics := metrics.(errors := metrics.errors + 1);
      }
    }

    // Retry.Do with the function Write passes to it in place of the call.
    method Attempts(msgID: string, data: Payload, env: WriteEnv, now: int) returns (r: Option<Error>)
      requires Writable()
      modifies this`metrics, ackTracker, write`nextGroup, write`log
      ensures Writable() && ackTracker.closed == old(ackTracker.closed)
      ensures var e := EnvOf(old(write.closed), old(send.View()), env);
        var n := Calls(retry.config, e);
        && r == Answer(retry.config, e)
        && write.View() == Attempted(old(write.View()), data, env.answers, n)
        && metrics == WriteCounts(old(metrics), r, n)
        && ackTracker.View() == WriteTracks(old(ackTracker.View()), msgID, r, n, now)
    {
      ghost var e := EnvOf(write.closed, send.View(), env);
      r := None;
      var k: nat := 1;
      while k <= retry.config.maxAttempts
        invariant k >= 1 && StopAt(retry.config, e, 1) == StopAt(retry.config, e, k)
        invariant r.None? && (k > 1 ==> k <= retry.config.maxAttempts)
        invariant metrics == Failures(old(metrics), k - 1)
        invariant Writable() && ackTracker.View() == old(ackTracker.View())
        invariant write.View() == Attempted(old(write.View()), data, env.answers, k - 1)
        decreases retry.config.maxAttempts - k
      {
        if env.doneBefore(k) {
          r := Some(ContextDone);
          break;
        }
        SameWriter(old(write.View()), data, env.answers, k - 1);
        var answer := Turn(msgID, data, k, env, now, old(metrics), e);
        if answer.Some? {
          r := answer.value;
          break;
        }
        k := k + 1;
      }
    }

    // Attempt k and what Do makes of its result: an answer, or none if it goes on.
    method Turn(msgID: string, data: Payload, k: nat, env: WriteEnv, now: int, ghost start: Metrics, ghost e: Env)
      returns (answer: Option<Option<Error>>)
      requires Writable() && 1 <= k <= retry.config.maxAttempts && !env.doneBefore(k)
      requires metrics == Failures(start, k - 1) && e == EnvOf(write.closed, send.View(), env)
      modifies this`metrics, ackTracker, write`nextGroup, write`log
      ensures Writable() && ackTracker.closed == old(ackTracker.closed)
      ensures write.View() == AfterCall(old(write.View()), [data], env.answers(k))
      ensures answer.None? <==> Continues(retry.config, e, k)
      ensures answer.None? ==> metrics == Failures(start, k) && ackTracker.View() == old(ackTracker.View())
      ensures answer.Some? ==>
        && answer.value == AnswerAt(retry.config, e, k) && CallsAt(retry.config, e, k) == k
        && metrics == WriteCounts(start, answer.value, k)
        && ackTracker.View() == WriteTracks(old(ackTracker.View()), msgID, answer.value, k, now)
    {
      var failure := Attempt(msgID, data, k - 1, env.answers(k), now, start);
      if failure.None? {
        return Some(None);
      }
      var retryable := retry.IsRetryable(failure.value);
      if !retryable || k >= retry.config.maxAttempts {
        return Some(failure);
      }
      if env.doneDuring(k) {
        return Some(Some(ContextDone));
      }
      return None;
    }

    // The function Write passes to Do, called for the attempt after `earlier` failed ones.
    method Attempt(msgID: string, data: Payload, earlier: nat, a: Answers, now: int, ghost start: Metrics)
      returns (failure: Option<Error>)
      requires Writable() && metrics == Failures(start, earlier)
      modifies this`metrics, ackTracker, write`nextGroup, write`log
      ensures Writable() && ackTracker.closed == old(ackTracker.closed)
      ensures failure == CallResult(old(write.View()), a, 1) && write.View() == AfterCall(old(write.View()), [data], a)
      ensures ackTracker.View() == WriteTracks(old(ackTracker.View()), msgID, failure, 1, now)
      ensures metrics == WriteCounts(start, failure, earlier + 1)
    {
      if earlier > 0 {
        metrics := metrics.(retries := metrics.retries + 1);
      }
      failure := write.Write(data, a);
      if failure.Some? {
        metrics := metrics.(errors := metrics.errors + 1);
        return;
      }
      metrics := metrics.(sent := metrics.sent + 1);
      if msgID != "" {
        var ch := ackTracker.Track(msgID, now);
      }
    }

    /** Reads the next message that is not a heartbeat. `interrupt(i)` is what the checks before
        object i find. */
    method Read(interrupt: nat -> Option<Error>) returns (r: ReadResult)
      requires Valid()
      modifies this`metrics, this`inbox, ackTracker, heartbeat`failures, heartbeat`lastPong, heartbeat`contacts
      ensures Valid() && closed == old(closed)
      ensures (View(), inbox, r) == ControlSpec.Read(old(View()), old(inbox), interrupt, 0)
    {
      var i: nat := 0;
      while true
        invariant Valid() && closed == old(closed)
        invariant ControlSpec.Read(View(), inbox, interrupt, i) == ControlSpec.Read(old(View()), old(inbox), interrupt, 0)
        decreases |inbox|
      {
        if interrupt(i).Some? {
          return ReadError(interrupt(i).value);
        }
        if inbox == [] {
          return ReadError(ContextDone);
        }
        var item := inbox[0];
        inbox := inbox[1..];
        match item
        case Failed(err) =>
          return ReadError(err);
        case Garbage(err) =>
          metrics := metrics.(errors := metrics.errors + 1);
          return ReadError(err);
        case Object(a) =>
          Take(a);
          if !IsHeartbeat(a.msg) {
            return Msg(a.msg);
          }
        i := i + 1;
      }
    }

    // What Read does with one decoded message.
    method Take(a: Arrival)
      requires Valid()
      modifies this`metrics, ackTracker, heartbeat`failures, heartbeat`lastPong, heartbeat`contacts
      ensures Valid() && closed == old(closed)
      ensures View() == Receive(old(View()), a)
    {
      metrics := metrics.(received := metrics.received + 1);
      heartbeat.RecordPong(a.now);
      HandleInboundAck(a);
    }

    method HandleInboundAck(a: Arrival)
      requires Valid()
      modifies this`metrics, ackTracker
      ensures Valid() && closed == old(closed)
      ensures View() == InboundAck(old(View()), a)
    {
      if !a.msg.Response? || a.msg.id.None? {
        return;
      }
      var id := Sprint(a.msg.id.value);
      if a.msg.failed {
        ackTracker.Nack(id, a.now, a.stopped);
        metrics := metrics.(nacked := metrics.nacked + 1);
        return;
      }
      ackTracker.Ack(id, a.now, a.stopped);
      metrics := metrics.(acked := metrics.acked + 1);
    }

    /** Closes once: the tracker is drained, the heartbeat stopped, the track writer closed, the QUIC
        connection closed and OnClose run on the first call, and never again. `first` is whether this
        call is the one in which OnClose runs. */
    method Close(now: int) returns (first: bool)
      requires Consistent()
      modifies this`closed, this`active, this`hung, this`onCloseCalls
      modifies ackTracker, heartbeat`running, write`closed, send
      ensures Valid() && closed && hung && onCloseCalls == 1
      ensures first == !old(closed) && onCloseCalls == old(onCloseCalls) + if first then 1 else 0
      ensures old(closed) ==> View() == old(View()) && write.View() == old(write.View())
      ensures !old(closed) ==>
        View() == old(View()).(tracker := A.CloseDrain(A.CloseBegin(old(ackTracker.View())), now))
      ensures forall a, n :: CallResult(write.View(), a, n) == Some(ConnectionClosed)
    {
      if closed {
        return false;
      }
      closed := true;
      var cancelled := heartbeat.Stop();
      ackTracker.Close(now);
      active := active - 1;
      write.Close();
      hung := true;
      onCloseCalls := onCloseCalls + 1;
      first := true;
    }

    /** A failed heartbeat closes the connection when its OnTimeout finds the limit reached. */
    method HeartbeatFailed(pongBefore: bool, pongAfter: bool, now: int) returns (first: bool)
      requires Valid()
      modifies this`closed, this`active, this`hung, this`onCloseCalls, ackTracker, heartbeat, write`closed, send
      ensures Valid()
      ensures heartbeat.View() == H.Step(heartbeat.maxFailures, old(heartbeat.View()), H.Failure(pongBefore, pongAfter))
      ensures closed <==> old(closed) || heartbeat.closed
      ensures first <==> closed && !old(closed)
    {
      var closes := heartbeat.HandleFailure(pongBefore, pongAfter);
      if closes {
        first := Close(now);
      } else {
        first := false;
      }
    }
  }

  // ---- what one write counts and tracks ----

  // The counters after n attempts that all failed.
  function Failures(m: Metrics, n: nat): Metrics {
    m.(retries := m.retries + (if n > 0 then n - 1 else 0), errors := m.errors + n)
  }

  // The counters after n attempts that ended with this answer.
  function WriteCounts(m: Metrics, r: Option<Error>, n: nat): Metrics {
    if r.None? && n > 0 then m.(sent := m.sent + 1, retries := m.retries + n - 1, errors := m.errors + n - 1)
    else Failures(m, n)
  }

  function WriteTracks(t: A.Tracker, msgID: string, r: Option<Error>, n: nat, now: int): A.Tracker {
    if r.None? && n > 0 && msgID != "" then A.Track(t, msgID, now) else t
  }

  predicate WriteSucceeds(cfg: RetryConfig, e: Env) {
    Answer(cfg, e).None? && Calls(cfg, e) > 0
  }

  /** The IDs of requests and of the responses to the peer's requests share one tracker. A request
      followed by the response to a request of the peer with the same ID leaves the first write's entry
      overwritten and unresolved. */
  method RequestThenResponse(c: ControlConn, id: ID, verb: string, failed: bool, data: Payload, answer: Payload,
                             env: WriteEnv, env': WriteEnv, now: int, later: int)
    returns (ghost first: nat)
    requires c.Valid() && !c.closed && !c.ackTracker.closed && Sprint(id) != ""
    requires WriteSucceeds(c.retry.config, EnvOf(c.write.closed, c.send.View(), env))
    requires WriteSucceeds(c.retry.config, EnvOf(c.write.closed, c.send.View(), env'))
    modifies c`metrics, c.ackTracker, c.write`nextGroup, c.write`log
    ensures c.Valid() && first == |old(c.ackTracker.chans)|
    ensures first in c.ackTracker.overwritten && first < |c.ackTracker.chans| && c.ackTracker.chans[first].sent == []
  {
    first := |c.ackTracker.chans|;
    ghost var e := EnvOf(c.write.closed, c.send.View(), env);
    SameWriter(c.write.View(), data, env.answers, Calls(c.retry.config, e));
    var r := c.Write(Request(verb, Some(id)), data, None, env, now);
    r := c.Write(Response(Some(id), failed), answer, None, env', later);
  }
}
