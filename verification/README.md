# Model of the MCP-over-MOQT transport's reliability layer

This project models the resource and reliability layer of the transport in
`pkg/moqttransport`, together with the config watcher of `pkg/config`, and proves what those parts
keep over every run: the QUIC connection pool and the client that leases from it, the
acknowledgment tracker, retries, the heartbeat, the control connection, publisher slots and track
writers, data-track publishing and subscriptions, subscribe routing, session establishment, the
server's registries, and the poll loop that reloads the config file.

## How it is organised

A module `XSpec` describes a component on values: its state, what one locked section or atomic step
does to it (`Step`), and `Run` over any list of steps. Its lemmas hold for every list, so for every
interleaving. The module beside it holds the object itself, a class with the fields of the Go type;
each method's contract says that the new state is the `Step` of the old one, so what is proved about
runs carries over to the object.

| Component | On values | Object |
|---|---|---|
| Connection pool | `PoolSpec.dfy`, `PoolHistory.dfy` | `Pool.dfy` |
| Client transport and its leases | `ClientSpec.dfy`, `ClientHistory.dfy` | `Client.dfy` |
| Acknowledgments | `AckSpec.dfy`, `AckHistory.dfy`, `AckTimeouts.dfy` | `Ack.dfy` |
| Retry and backoff | `Retry.dfy` | `Retry.dfy` |
| Heartbeat | `HeartbeatSpec.dfy` | `Heartbeat.dfy` |
| Control connection | `ControlSpec.dfy`, `ControlHistory.dfy` | `ControlConn.dfy` |
| Publisher slot, track writer | `TrackSpec.dfy`, `WriterRuns.dfy` | `Track.dfy` |
| Data-track handler | `BatchSpec.dfy`, `SubsSpec.dfy` | `DataTrack.dfy` |
| Routing | `RoutingSpec.dfy` | `Routing.dfy` |
| Session establishment | `SessionSpec.dfy` | - |
| Server registries | `ServerSpec.dfy` | `Server.dfy` |
| Config watcher | `WatchSpec.dfy` | `Watch.dfy` |

`Common.dfy` holds the option and error types and sums over finite maps. `dafny verify dfyconfig.toml`
checks everything.

What the transport calls but does not define (QUIC dials, session calls, `WriteObject`, encoders,
clocks, random numbers, cancellation) appears as parameters, with any answer allowed. A call that
read an atomic `closed` flag before `Close` set it is a *stale* call, and the pool and subscriber
models allow it at every point. The object and track shapes follow section 2 of
draft-ietf-moq-transport-11, message IDs sections 4 and 5 of the JSON-RPC 2.0 specification.

## What does not hold, and exactly when

The code is modelled as it is. Where a property one would expect fails, the model has a concrete
failing case or an exact condition:

- `Put` searches under the address the connection reports, `Get` under the name that was dialled. If
  the two differ (a host name was dialled), and only then, the lease never returns; as many Connect
  calls as the pool has room for fill it for good (`ClientSpec.GivingBackLeaksIff`,
  `PoolSpec.MismatchedLeaseNeverReturns`, `ClientHistory.LeaksFillThePool`).
- Closing a control connection closes its QUIC connection and only then returns it. A pool hit hands
  out a closed connection exactly when some Connect has ever returned on it
  (`ClientHistory.PoolHitIsDeadIff`, `ClientHistory.DeadHits`).
- A second `Put` of an idle connection still moves the counters. The pool stays "healthy" exactly
  while such repeats do not outnumber the leases (`PoolSpec.HealthyIff`).
- Ack timers carry a message ID, not an entry. A Track call can be timed out early exactly when a
  timer of an earlier Track of that ID still runs that is due before its own
  (`AckTimeouts.TrackIsSafeIff`); a Track that finds its ID pending leaves the earlier entry unresolved
  (`AckTimeouts.AllResolvedIff`). `Write` does not keep to this rule: it tracks responses too, whose
  IDs the peer chose (`ControlConnection.RequestThenResponse`, `ControlSpec.WritesOverwriteIff`).
- A `Write` that returns nil may have placed its message more than once: exactly when an earlier attempt
  had placed it and then failed to close its group (`Tracks.DeliveredOnceIff`).
- `MaxAttempts` below one makes `Do` return nil without calling anything (`Retrying.DoOutcome`).
- The number 1 and the string "1" are different JSON-RPC IDs but tracked under one text, and the empty
  string is a valid ID that is not tracked (`ControlSpec.IDsCollideIff`, `ControlSpec.UntrackedIff`).
- `Clear` on a slot that was never set leaves every `Get` waiting for its own context
  (`TrackSpec.GetIsStable`).
- Group IDs repeat once 2^64 writes have been made (`TrackSpec.GroupIDsRepeatIff`).
- With a batch size of zero, `BatchPublish` of a non-empty list writes empty groups until a write fails;
  with a negative one it panics (`BatchSpec.ProgressIff`, `DataTracks.DataTrackHandler.BatchPublish`). An empty list makes `PublishStream` write an empty group and
  `BatchPublish` none.
- A `Subscribe` that slipped past `Close` stays live in a closed handler
  (`SubsSpec.SlippedSubscribeStaysLive`), and nothing else does (`SubsSpec.LiveAfterCloseIff`). In the
  same way a peer's subscribe leaves an open publisher there (`DataTracks.SlippedSubscribe`).
- A connection set up while the server transport closes loses its handlers and stays open
  (`ServerSpec.SetupInsideCloseOrphans`); the registries disagree exactly while such a connection is
  open (`ServerSpec.RegistriesAgreeIff`). One whose setup ends after Close stays open and registered
  (`ServerSpec.SetupAfterCloseStays`). Close has cleaned up exactly when every connection set up since it
  began has been closed itself (`ServerSpec.CloseEmptiesRegistriesIff`).
- An empty session ID never connects (`SessionSpec.EmptyIDNeverConnects`).
- The watcher loads the file before it first reads the modification time; a write in between is lost
  until a write with a newer time (`WatchSpec.WriteDuringStartIsLostIff`). After that, a usable write is
  taken exactly when a poll has looked at the time and not loaded the file yet, or when its time is newer
  than the one recorded, or loaded by a poll that is about to record it (`WatchSpec.WriteIsSeenIff`);
  whether it raised the file's own time does not decide that (`WatchSpec.RaisingIsNotTheCondition`).
- The OnClose closure clears the transport's session fields whoever they belong to: a session that is
  open is forgotten exactly when the Connect that returned last is another one than the closing one and
  nothing has closed since (`ClientHistory.ForgetsLiveSessionIff`, `ClientHistory.OlderCloseForgets`).

## Model

| member | source | states |
|---|---|---|
| PoolSpec.Conservation | pkg/moqttransport/quic_manager.go:129-253 | after every interleaving, stale calls and repeated Puts included: total is the number of pooled entries, active + idle = total, created = closed + total, total never exceeds a positive limit, and active is the entries in use less the repeated Puts |
| PoolSpec.HealthyIff | pkg/moqttransport/quic_manager.go:296-303 | an open pool is healthy exactly when repeated Puts do not outnumber the entries in use |
| PoolSpec.ReturningTwiceIsUnhealthy | pkg/moqttransport/quic_manager.go:176-196 | one lease returned twice makes an open pool unhealthy |
| PoolSpec.KeepIsFilter | pkg/moqttransport/quic_manager.go:235-246 | what cleanup keeps of a list is exactly its non-expired entries, in order |
| PoolSpec.CleanupFilters | pkg/moqttransport/quic_manager.go:231-253 | cleanup filters every address's list, leaves no empty list and shuts only entries that were not in use and idle for too long |
| PoolSpec.ReuseIsRecent | pkg/moqttransport/quic_manager.go:72-86 | in every run with fresh dials, a reused connection was last checked out at most maxIdleTime ago, however recently it was returned, and it is the first such entry of the list |
| PoolSpec.PoolFullMeansFull | pkg/moqttransport/quic_manager.go:137-151 | ErrPoolFull exactly when the pool holds its limit of entries and none for this address is reusable |
| PoolHistory.GetSucceedsIff | pkg/moqttransport/quic_manager.go:129-174 | a Get that is let in hands out a connection iff an idle one of that address was checked out recently enough, or there is room and the dial succeeds; it answers with the error of its dial, of a full or of a closed pool otherwise |
| PoolHistory.NoneLost | pkg/moqttransport/quic_manager.go:206-253 | in every run, each connection ever handed out is still in a list or has been closed by the pool: neither cleanup nor Close drops one |
| PoolHistory.CloseShutsAll | pkg/moqttransport/quic_manager.go:176-229 | Close leaves the pool empty with everything it held closed, and a connection put back afterwards is closed as well |
| PoolHistory.CountersTell | pkg/moqttransport/quic_manager.go:137-173 | in every run with fresh dials, created counts the different connections handed out, hits the other successful Gets, misses the created ones and the failed dials |
| PoolSpec.MismatchedLeaseNeverReturns | pkg/moqttransport/quic_manager.go:185-194 | a lease dialled under another name than its reported address stays in use under every later call until Close |
| PoolSpec.MismatchedPoolStaysFull | pkg/moqttransport/quic_manager.go:149-151 | a bounded pool filled with such leases never changes again and refuses every Get; ClientHistory.LeaksFillThePool reaches such a pool |
| ConnectionPool.PooledConnection.MarkInUse | pkg/moqttransport/quic_manager.go:72-75 | checkout stamps the entry and marks it in use |
| ConnectionPool.PooledConnection.MarkIdle | pkg/moqttransport/quic_manager.go:77-79 | returning does not refresh the stamp |
| ConnectionPool.PooledConnection.IsExpired | pkg/moqttransport/quic_manager.go:81-86 | an entry in use never expires; an idle one does when its last checkout is older than the limit |
| ConnectionPool.QUICConnectionPool.Get | pkg/moqttransport/quic_manager.go:129-174 | the object's Get is the value-level step: first reusable entry, else capacity, else dial, with all counters |
| ConnectionPool.QUICConnectionPool.LockedGet | pkg/moqttransport/quic_manager.go:134-174 | the section under the mutex on its own, which a stale Get runs on a closed pool |
| ConnectionPool.QUICConnectionPool.Put | pkg/moqttransport/quic_manager.go:176-196 | the object's Put is the value-level step; on a closed pool it only shuts the connection |
| ConnectionPool.QUICConnectionPool.LockedPut | pkg/moqttransport/quic_manager.go:182-196 | marks the first entry of that connection idle and moves the counters even if it was idle already |
| ConnectionPool.QUICConnectionPool.CleanupExpired | pkg/moqttransport/quic_manager.go:231-253 | the loops over addresses and entries, in any order of addresses, come to the filter of all lists and the sum of what was dropped |
| ConnectionPool.QUICConnectionPool.Close | pkg/moqttransport/quic_manager.go:206-229 | closes once; shuts and counts every entry, empties the pool and its gauges |
| ConnectionPool.QUICConnectionPool.IsFull | pkg/moqttransport/quic_manager.go:277-281 | true exactly when Get would refuse to dial |
| ConnectionPool.QUICConnectionPool.Available | pkg/moqttransport/quic_manager.go:283-294 | -1 when unbounded, zero exactly when full, otherwise what is missing to the limit |
| ConnectionPool.QUICConnectionPool.IsHealthy | pkg/moqttransport/quic_manager.go:296-303 | not closed and neither gauge negative |
| ClientSpec.LeasesBalance | pkg/moqttransport/client.go:45-92 | over all Connects and closes of one transport: no connection is leased twice at a time, active is the live leases plus the leaked ones, only mismatched addresses leak, and the pool is healthy iff open |
| ClientHistory.ClientRunsThePool | pkg/moqttransport/client.go:45-92 | every run of the client is a run of its pool: one Get for each Connect, one Put for each failing one and each closing control connection |
| ClientSpec.MatchingAddressesBalance | pkg/moqttransport/client.go:85-90 | with dialled names equal to reported addresses, active is exactly the Connects in flight and open control connections, and the entries in use are exactly theirs |
| ClientHistory.PoolHitIsDeadIff | pkg/moqttransport/control_conn.go:264-269 | in every run, the connection a pool hit hands out has been closed by a control connection iff some Connect ever returned on it, and never by the pool itself |
| ClientHistory.DeadHits | pkg/moqttransport/client.go:45-68 | one run with two dead hits: after a clean close, and again after a Connect that was given the dead connection put it back |
| ClientSpec.GivingBackLeaksIff | pkg/moqttransport/client.go:64-90 | giving a lease back, by a failing Connect or a closing control connection, loses it iff the reported address is not the dialled name; then the pool does not change |
| ClientSpec.LeaksStay | pkg/moqttransport/client.go:45-92 | no step of an open system recovers a leaked lease |
| ClientSpec.LeaksExhaustThePool | pkg/moqttransport/client.go:46-49 | when leaks reach the size of the pool every Get is refused |
| ClientHistory.LeaksFillThePool | pkg/moqttransport/client.go:45-92 | from an empty pool of size n, n mismatched Connect calls that end well or badly, one after the other, reach that point with no holder left, and every Get after any further calls short of Close is refused |
| ClientHistory.ForgetsLiveSessionIff | pkg/moqttransport/client.go:81-89 | a closing control connection makes the transport forget a session that is still open iff the Connect that returned last is another one and nothing has closed since |
| ClientHistory.OlderCloseForgets | pkg/moqttransport/client.go:85-90 | a run in which the transport has no session although a control connection is open |
| Client.MOQTClientTransport.Connect | pkg/moqttransport/client.go:45-92 | succeeds iff the pool gave a connection and all session calls succeeded; holds one lease then, returned together with the control connection that will give it back, and none otherwise; a failure leaves the session fields alone |
| Client.MOQTClientTransport.Establish | pkg/moqttransport/client.go:64-91 | each of the failure paths returns the lease exactly once |
| Client.MOQTClientTransport.OnControlClose | pkg/moqttransport/client.go:85-90 | returns the lease once and clears the session fields; an open session is forgotten iff the fields held another Connect call's |
| Client.ClientConnection.Close | pkg/moqttransport/control_conn.go:240-272 | the first Close of a control connection takes the closing step of its own lease, any later one changes nothing |
| Client.ClientConnection.HeartbeatFailed | pkg/moqttransport/control_conn.go:85-90 | the lease goes back in the very failure in which the heartbeat closes the connection |
| Client.MOQTClientTransport.Close | pkg/moqttransport/client.go:116-121 | closes and drains the pool |
| AckSpec.AtMostOnce | pkg/moqttransport/ack.go:60-157 | over every interleaving each channel gets at most one message and is closed at most once after it, and every pending one is empty and open, so no send under the mutex blocks or panics |
| AckSpec.TracksAccounted | pkg/moqttransport/ack.go:60-157 | Track calls = pending + resolved + overwritten |
| AckSpec.NothingPendingAfterClose | pkg/moqttransport/ack.go:66-88 | after the drain nothing is pending in any continuation, and every Track is resolved exactly once unless it was overwritten |
| AckHistory.ResolvedIff | pkg/moqttransport/ack.go:60-157 | over every run, a channel has received exactly one message with this status and time iff some event of that time resolved it so: an Ack or a Nack of its ID while it was the pending entry, a due timer of its ID, or, for Nacked, the drain or a Track on a closed tracker |
| AckHistory.ChansAreTracks | pkg/moqttransport/ack.go:60-89 | there is one channel for each Track call, in order, with its ID and its time |
| AckHistory.TrackIsPending | pkg/moqttransport/ack.go:76-88 | a Track on an open tracker is the pending entry of its ID at once, and its own timer runs for the whole timeout |
| AckHistory.PendingHasTimer | pkg/moqttransport/ack.go:82-86 | in every run a pending channel has its own timer running, due when it has waited the full time |
| AckHistory.AnswerStopsTimer | pkg/moqttransport/ack.go:95-103 | an answer takes out its entry and, if it could be stopped, its timer, and nothing else |
| AckHistory.TimersFireOnce | pkg/moqttransport/ack.go:82-84 | a timer fires once and not before it is due |
| AckHistory.ClosesOnce | pkg/moqttransport/ack.go:140-156 | Close sets the flag before it drains, and drains once |
| AckSpec.TimeoutsAreJustified | pkg/moqttransport/ack.go:82-84 | a Timeout status means some Track of that ID waited the full time out; the same Track, if the ID was used once |
| AckSpec.ReusedIDTimesOutEarly | pkg/moqttransport/ack.go:124-138 | a stale timer resolves a later Track of the same ID before its time |
| AckTimeouts.FireIsEarlyIff | pkg/moqttransport/ack.go:82-84 | a timer that resolves a pending channel does so early iff it belongs to another Track and the channel's own time has not come |
| AckTimeouts.CanTimeOutEarlyIff | pkg/moqttransport/ack.go:76-86 | a pending Track can be timed out early in some continuation iff its time has not come and a timer of the same ID runs that is due before |
| AckTimeouts.TrackIsSafeIff | pkg/moqttransport/ack.go:60-89 | so a Track call is safe from early timeouts iff no timer of an earlier Track of that ID is still running that is due before its own |
| AckSpec.DistinctIDsNeverOverwrite | pkg/moqttransport/ack.go:76-86 | if no ID is tracked twice, nothing is overwritten |
| AckTimeouts.OverwrittenIff | pkg/moqttransport/ack.go:86-86 | an entry of the run is overwritten iff some Track finds its own ID pending |
| AckTimeouts.AllResolvedIff | pkg/moqttransport/ack.go:140-157 | after the drain every Track was resolved exactly once iff none found its ID pending |
| AckTracking.AckTracker.Track | pkg/moqttransport/ack.go:60-89 | the object's step; a closed tracker answers at once with Nacked |
| AckTracking.AckTracker.Ack | pkg/moqttransport/ack.go:91-105 | resolves the pending entry as acked, or does nothing |
| AckTracking.AckTracker.Nack | pkg/moqttransport/ack.go:107-122 | resolves the pending entry as nacked, or does nothing |
| AckTracking.AckTracker.TimeoutAck | pkg/moqttransport/ack.go:124-138 | a firing timer resolves whatever entry its ID has by then |
| AckTracking.AckTracker.Close | pkg/moqttransport/ack.go:140-157 | the first call nacks and closes every pending channel once, in any order, and empties the map |
| AckTracking.AckTracker.PendingCount | pkg/moqttransport/ack.go:159-163 | the number of Track calls still waiting |
| Retrying.DoOutcome | pkg/moqttransport/retry.go:44-79 | at most MaxAttempts calls, every call before the last failed retryably, nil iff the last call succeeded or none is allowed |
| Retrying.DoIsOutcome | pkg/moqttransport/retry.go:44-79 | the calls made, the answer and the waits are the only ones that fit the environment: every earlier call failed retryably and was waited for in full, and the last call, a cancelled wait or a cancelled start decides |
| Retrying.DoStopsBecause | pkg/moqttransport/retry.go:44-79 | Do stops early only for nil, an error not worth retrying or a cancellation; it answers with the last result when nothing is cancelled, and with the context's error exactly when that cut it short |
| Retrying.FailedIs | pkg/moqttransport/retry.go:54-63 | all calls of one Do fail but the last, and that too unless Do returns nil |
| Retrying.DelaysGrow | pkg/moqttransport/retry.go:118-126 | delays without jitter never shrink and never exceed MaxDelay |
| Retrying.DelaysMultiply | pkg/moqttransport/retry.go:118-126 | the first delay is InitialDelay and each next one is the one before times Multiplier, both capped |
| Retrying.JitterIs | pkg/moqttransport/retry.go:128-133 | jitter multiplies a delay by one plus a tenth of the random number |
| Retrying.JitterRange | pkg/moqttransport/retry.go:128-135 | jitter keeps a delay d within [d, 1.1 d] |
| Retrying.TotalBackoff | pkg/moqttransport/retry.go:44-79 | the waits of one Do sum to at most 1.1 times the smaller of (n-1) MaxDelay and the closed geometric sum |
| Retrying.Retry.Do | pkg/moqttransport/retry.go:44-79 | the loop has exactly the calls, the answer and the waits that the environment allows |
| Retrying.Retry.CalculateDelay | pkg/moqttransport/retry.go:118-136 | the multiplying loop computes min(InitialDelay * Multiplier^(k-1), MaxDelay), then jitter |
| Retrying.Retry.IsRetryable | pkg/moqttransport/retry.go:138-150 | an empty list retries everything, otherwise membership |
| HeartbeatSpec.CounterBelowLimit | pkg/moqttransport/heartbeat.go:99-117 | in every run the counter is below the limit between calls and never above it inside handleFailure |
| HeartbeatSpec.ReconnectsCountRuns | pkg/moqttransport/heartbeat.go:104-117 | over every event list, OnReconnect runs sum of floor(run/MaxFailures) times over the maximal failure runs, where a message ends a run, also one that lands while a failure is handled |
| HeartbeatSpec.TimeoutsCountFailures | pkg/moqttransport/heartbeat.go:104-109 | OnTimeout runs once in every failure |
| HeartbeatSpec.ClosedIff | pkg/moqttransport/control_conn.go:85-90 | the heartbeat has closed the connection iff at some point MaxFailures beats in a row failed with no success or message between them |
| Heartbeating.Heartbeat.HandleFailure | pkg/moqttransport/heartbeat.go:104-117 | the step of one failure, with messages landing before or after OnTimeout looks at the counter |
| Heartbeating.Heartbeat.HandleSuccess | pkg/moqttransport/heartbeat.go:99-102 | resets the counter and the pong time |
| Heartbeating.Heartbeat.RecordPong | pkg/moqttransport/heartbeat.go:127-130 | an inbound message resets the counter and the pong time |
| Heartbeating.Heartbeat.Start | pkg/moqttransport/heartbeat.go:41-53 | only the first start resets |
| Heartbeating.Heartbeat.Stop | pkg/moqttransport/heartbeat.go:119-125 | cancels once |
| Heartbeating.Heartbeat.IsHealthy | pkg/moqttransport/heartbeat.go:144-152 | while it runs, healthy iff the peer was heard of, by the start, a success or a message, within the last MaxFailures intervals |
| ControlSpec.IDsCollideIff | pkg/moqttransport/control_conn.go:226-238 | two IDs share a tracking text iff they are equal or one is the string of the other's digits |
| ControlSpec.UntrackedIff | pkg/moqttransport/control_conn.go:226-238 | a message is untracked iff it has no valid ID or the empty string as ID |
| ControlHistory.Texts | pkg/moqttransport/control_conn.go:226-238 | numbers are tracked in decimal, strings as they are |
| ControlSpec.WritesOverwriteIff | pkg/moqttransport/control_conn.go:176-238 | between answers, writes keep every tracked entry iff no message, request or response, has the text ID of a pending entry or of another of them |
| ControlSpec.ReadsAreFilter | pkg/moqttransport/control_conn.go:104-147 | successive Reads return exactly the non-heartbeat messages, in order, and take in everything up to the last of them |
| ControlHistory.ReadStops | pkg/moqttransport/control_conn.go:104-147 | a Read takes in heartbeats and stops at the first interruption, end, other message, undecodable object or failed read, with the result and the counters of that |
| ControlSpec.ReceiveAllCounts | pkg/moqttransport/control_conn.go:135-145 | every object taken in counts as received and resets the failure counter; responses with a valid ID are counted as acked or nacked |
| ControlHistory.ReceiveCounts | pkg/moqttransport/control_conn.go:135-139 | one message counts as received, resets the failure counter, and counts as acknowledged or refused iff it is a response with a valid ID |
| ControlHistory.ResponseResolves | pkg/moqttransport/control_conn.go:209-224 | a response resolves the pending entry of its text ID, as refused iff it carries an error |
| ControlHistory.WrittenIsAnswered | pkg/moqttransport/control_conn.go:162-224 | a message tracked by a write is resolved by the response that carries its ID |
| ControlSpec.AckedBetween | pkg/moqttransport/control_conn.go:188-224 | with r success responses the acked counter is between r and 2r, at every point of every run |
| ControlHistory.NackedBetween | pkg/moqttransport/control_conn.go:188-224 | with f failure responses the refused counter is between f and 2f plus the messages dropped by closing; the timeout counter is what the waiting goroutines saw time out |
| ControlHistory.ResponsesCounted | pkg/moqttransport/control_conn.go:209-224 | the numbers these bounds speak of are the responses with a valid ID in the run, by outcome |
| ControlSpec.AckedWhenSettled | pkg/moqttransport/control_conn.go:188-207 | once no resolved channel is left uncounted, acked is r plus the acknowledged messages |
| ControlConnection.ControlConn.Write | pkg/moqttransport/control_conn.go:149-186 | for any answers of the library and any cancellation: the answer is that of Do over the track writer, the writer has seen exactly the attempts, a send is counted iff it succeeds, retries are the attempts less one, errors the failed attempts and one more iff it fails, and a valid ID other than the empty string is tracked iff it succeeds |
| ControlConnection.RequestThenResponse | pkg/moqttransport/control_conn.go:176-178 | writing a request and then the response to a request of the peer with the same ID leaves the first entry overwritten and unresolved |
| Tracks.DeliveredOnceIff | pkg/moqttransport/control_conn.go:164-180 | a write that returns nil has placed the message at least once, and exactly once iff no earlier attempt had placed it before failing |
| ControlConnection.ControlConn.Attempts | pkg/moqttransport/control_conn.go:164-180 | the retry loop with the write function inside it has the answer and the number of calls of Do |
| ControlConnection.ControlConn.Read | pkg/moqttransport/control_conn.go:104-147 | the loop refines the value-level Read, cancellation, closing and undecodable objects included |
| ControlConnection.ControlConn.HandleInboundAck | pkg/moqttransport/control_conn.go:209-224 | a response with a valid ID answers the tracker and is counted; anything else changes nothing |
| ControlConnection.ControlConn.Close | pkg/moqttransport/control_conn.go:240-272 | the first call drains the tracker, stops the heartbeat, closes the track writer so that no later write reaches a publisher, closes the QUIC connection and is the one that runs OnClose; later ones change nothing |
| ControlConnection.ControlConn.HeartbeatFailed | pkg/moqttransport/control_conn.go:85-90 | the connection is closed afterwards iff it was or the heartbeat machine says so |
| TrackSpec.LatchIs | pkg/moqttransport/track_base.go:22-51 | after any calls the slot holds the first publisher set, unless cleared, and its channel was closed at most once |
| TrackSpec.GetIsStable | pkg/moqttransport/track_base.go:32-44 | every successful Get of a run returns the same publisher, none succeeds after Clear, and a slot cleared first leaves waiters to their context |
| TrackSpec.PairsUnique | pkg/moqttransport/track_base.go:67-115 | for at most 2^64 interleaved, failing or successful writes no (group, object) pair is written twice |
| TrackSpec.ObjectsContiguous | pkg/moqttransport/track_base.go:107-112 | what is written of a group is a prefix of its call's objects, numbered from 0 |
| TrackSpec.GroupIDsRepeatIff | pkg/moqttransport/track_base.go:77-77 | group IDs are 0, 1, 2, ... and distinct iff at most 2^64 were taken |
| Tracks.PublisherSlot.Set | pkg/moqttransport/track_base.go:22-30 | the object's step; the channel is never closed twice |
| Tracks.PublisherSlot.Get | pkg/moqttransport/track_base.go:32-44 | the answer of the value-level slot |
| Tracks.PublisherSlot.Clear | pkg/moqttransport/track_base.go:46-51 | the object's step |
| Tracks.TrackWriter.Write | pkg/moqttransport/track_base.go:67-89 | takes one group iff it reached a publisher, places object 0 iff the group then opens and the object is written, and returns nil iff closing the group succeeds as well |
| Tracks.TrackWriter.WriteStream | pkg/moqttransport/track_base.go:91-115 | places, in one new group, exactly the objects before the first failure, and returns nil iff nothing failed |
| Tracks.TrackWriter.Close | pkg/moqttransport/track_base.go:117-121 | no later write reaches a publisher |
| WriterRuns.WriterRefines | pkg/moqttransport/track_base.go:67-115 | over every sequence of writes and slot changes, a writer has the next group and the log of the interleaved model, with one of its calls for each write that reached a publisher |
| WriterRuns.WriterPairsUnique | pkg/moqttransport/track_base.go:77-107 | of at most 2^64 writes that reach a publisher, failing or not, no two objects share group and object ID |
| WriterRuns.CallOwnsGroup | pkg/moqttransport/track_base.go:91-115 | the k-th write that reaches a publisher owns group k, failing or not, and adds its objects before the first failure; any other write changes nothing |
| WriterRuns.CallAnswers | pkg/moqttransport/track_base.go:67-115 | a write returns nil iff it reaches its publisher, the group opens, every object is written and the group closes; otherwise the first error met |
| BatchSpec.OrderCovers | pkg/moqttransport/data_track_handler.go:152-175 | whatever order the goroutines finish in, every index is filled |
| BatchSpec.ChunksCover | pkg/moqttransport/data_track_handler.go:423-429 | the batches concatenate to the list, all but the last are full, none is empty and there are ceil(n/size) |
| BatchSpec.BatchesRefineStream | pkg/moqttransport/data_track_handler.go:409-464 | the objects of the batch groups, in order, are the objects PublishStream writes as one group |
| BatchSpec.BatchesEncodeIff | pkg/moqttransport/data_track_handler.go:434-453 | all batches encode iff all messages do |
| BatchSpec.BatchesOfBytes | pkg/moqttransport/data_track_handler.go:429-446 | encoding batch by batch gives the batches of the encoded list |
| BatchSpec.PlacedBatchesAreMessages | pkg/moqttransport/data_track_handler.go:423-455 | what the groups of all batches carry is, object by object, the encoded messages |
| BatchSpec.PlacedInGroups | pkg/moqttransport/data_track_handler.go:455-455 | each entry is an object of one batch, under that batch's group and numbered within it |
| BatchSpec.ProgressIff | pkg/moqttransport/data_track_handler.go:423-423 | the index of BatchPublish's own loop passes a non-empty list iff the batch size is at least one |
| SubsSpec.OneLiveSubscriber | pkg/moqttransport/data_track_handler.go:180-405 | in every interleaving a subscriber that is not cancelled is the map entry and the latest of its track; each message channel is closed at most once |
| SubsSpec.DataReachesTheLiveOne | pkg/moqttransport/data_track_handler.go:216-247 | data reaches a subscriber iff it is the live one of that track |
| SubsSpec.CallsDecideReceiver | pkg/moqttransport/data_track_handler.go:180-214 | an accepted Subscribe makes the new subscription the receiver and ends the earlier one, Unsubscribe leaves no receiver, and neither touches another track |
| SubsSpec.EndedReceivesNothing | pkg/moqttransport/data_track_handler.go:390-403 | a subscription whose context ends receives nothing more, its cleanup closes its channel and leaves the map without it, and no other is affected |
| SubsSpec.StaleCleanupIsHarmless | pkg/moqttransport/data_track_handler.go:390-403 | a cleanup after replacement touches no other subscriber and no map entry |
| SubsSpec.CloseEmpties | pkg/moqttransport/data_track_handler.go:325-346 | Close, in its two parts, leaves nobody live and the map empty |
| SubsSpec.LiveAfterCloseIff | pkg/moqttransport/data_track_handler.go:325-346 | in a closed and emptied handler nobody is live, and a step makes somebody live iff it is a Subscribe that slipped past Close |
| SubsSpec.CloseCancelsAll | pkg/moqttransport/data_track_handler.go:325-346 | after Close nobody is live at any later point iff no slipped Subscribe follows |
| SubsSpec.SlippedSubscribeStaysLive | pkg/moqttransport/data_track_handler.go:180-199 | a Subscribe that read the flag before Close stays live after it |
| DataTracks.DataTrackHandler.HandleSubscribe | pkg/moqttransport/data_track_handler.go:79-112 | accepted iff open and for its own namespace; the new publisher is fresh and open, the replaced one closed, all others untouched |
| DataTracks.SlippedSubscribe | pkg/moqttransport/data_track_handler.go:97-112 | a subscribe that slipped past Close leaves an open publisher in a closed handler, and another Close does not close it |
| DataTracks.DataTrackHandler.SameNamespace | pkg/moqttransport/data_track_handler.go:85-95 | the comparing loop decides equality of namespaces |
| DataTracks.DataTrackHandler.MarshalAll | pkg/moqttransport/data_track_handler.go:152-175 | for every completion order the objects are the encoded messages in message order; an error iff some message does not encode |
| DataTracks.DataTrackHandler.PublishStream | pkg/moqttransport/data_track_handler.go:139-178 | nothing is written unless all messages encode; then the answer and what is written are exactly the writer's, one group with every object on success |
| DataTracks.DataTrackHandler.BatchPublish | pkg/moqttransport/data_track_handler.go:409-464 | returns nil iff every batch encodes and its write succeeds, and what was written then is the encoded messages in order, batch by batch under consecutive groups; otherwise it stops at the first batch that fails, with its error, after whole batches and what that write placed; with a batch size of zero it ends only when a write fails |
| DataTracks.DataTrackHandler.Subscribe | pkg/moqttransport/data_track_handler.go:180-199 | cancels the earlier subscriber and takes its place |
| DataTracks.DataTrackHandler.StreamMessages | pkg/moqttransport/data_track_handler.go:357-406 | the same, for a stream with a cleanup goroutine |
| DataTracks.DataTrackHandler.Unsubscribe | pkg/moqttransport/data_track_handler.go:201-214 | cancels and removes the current subscriber |
| DataTracks.DataTrackHandler.CleanUp | pkg/moqttransport/data_track_handler.go:390-403 | removes the entry only if it is still its own, and closes its channel once |
| DataTracks.DataTrackHandler.HandleData | pkg/moqttransport/data_track_handler.go:216-247 | delivers to the live subscriber and nobody else, and returns an error when it delivers to nobody |
| DataTracks.DataTrackHandler.Close | pkg/moqttransport/data_track_handler.go:325-346 | once: every writer closed, every subscriber cancelled, both maps empty |
| RoutingSpec.NamespacesApart | pkg/moqttransport/data_tracks.go:30-53 | data namespaces are injective in session and known type and never a control namespace |
| RoutingSpec.NamespacesAre | pkg/moqttransport/session_handlers.go:110-128 | the namespaces and the advertised paths in full |
| RoutingSpec.AtMostOneFits | pkg/moqttransport/session_handlers.go:47-70 | with the default handlers a subscribe fits at most one |
| RoutingSpec.ServerAcceptsIff | pkg/moqttransport/session_handlers.go:19-70 | an open server accepts exactly its own server-to-client control track and any track of its data namespaces |
| RoutingSpec.DataPathSplitsIff | pkg/moqttransport/session_handlers.go:115-127 | an advertised data path splits back to the namespace iff the session ID has no slash |
| RoutingSpec.ControlPathSplitsIff | pkg/moqttransport/session_handlers.go:111-114 | the same for the control paths, which end in the track |
| Routing.SubscribeHandler.HandleSubscribe | pkg/moqttransport/session_handlers.go:19-39 | accepts iff shape, session and track fit; learns the session only when it had none and only on success; fills the slot |
| Routing.CompositeSubscribeHandler.Route | pkg/moqttransport/session_handlers.go:47-69 | control by shape, else the first data handler with that namespace, else nowhere |
| Routing.CompositeSubscribeHandler.HandleSubscribe | pkg/moqttransport/session_handlers.go:47-70 | the routed handler decides alone; every other handler keeps its flag, its subscribers and its writers as they were, the routed one everything but the replaced writer, and all stay well formed |
| SessionSpec.StepAdvances | pkg/moqttransport/session_handlers.go:19-39 | every step that can happen moves exactly one side one stage on |
| SessionSpec.NobodyRejects | pkg/moqttransport/client.go:54-83 | in every order of messages no side rejects or fails and at most eight events happen |
| SessionSpec.NoDeadlock | pkg/moqttransport/client.go:69-79 | some event can happen iff one of the two Connects has not returned |
| SessionSpec.SessionAgreement | pkg/moqttransport/server.go:165-196 | when both have returned they hold the same session ID, the client's handler has learned it and each slot holds the peer's subscription |
| SessionSpec.LearnedIsFinal | pkg/moqttransport/session_handlers.go:35-38 | what the client's handler has learned never changes |
| SessionSpec.EmptyIDNeverConnects | pkg/moqttransport/client.go:123-151 | with an empty server ID no client Connect ever succeeds |
| ServerSpec.RegistriesAgreeIff | pkg/moqttransport/server.go:198-216 | the handler registry has the session IDs of the registered connections, and of those Close has still to close, iff no connection that lost its handlers to Close is open |
| ServerSpec.RegistriesAgree | pkg/moqttransport/server.go:198-216 | so they agree when nothing is set up inside Close |
| ServerSpec.SetupInsideCloseOrphans | pkg/moqttransport/server.go:266-294 | a setup inside Close leaves an open connection without handlers |
| ServerSpec.LookupIff | pkg/moqttransport/server.go:235-254 | a lookup by session and type finds the unique open handler of both |
| ServerSpec.SetupRegisters | pkg/moqttransport/server.go:198-218 | a setup registers its connection and the three open handlers of its session and leaves everything else |
| ServerSpec.CloseLeavesOthers | pkg/moqttransport/server.go:199-208 | closing one connection takes it and its session out of the registries and leaves the other ones |
| ServerSpec.CloseTakesOwnHandlers | pkg/moqttransport/server.go:199-208 | after closing a connection its own three handlers are closed once and no other is touched, whatever transport Close has done; a second close changes nothing |
| ServerSpec.CloseEmptiesRegistriesIff | pkg/moqttransport/server.go:266-311 | once Close has ended, both registries are empty, and every connection was closed exactly once, iff every connection set up after Close had begun has been closed itself; every handler was closed exactly once iff the handler registry is empty |
| ServerSpec.SetupAfterCloseStays | pkg/moqttransport/server.go:192-218 | a setup that ends after Close leaves an open, registered connection with its handlers in a closed transport |
| ServerTransport.MOQTServerTransport.RegisterConnection | pkg/moqttransport/server.go:198-218 | the object's step of one setup |
| ServerTransport.MOQTServerTransport.OnClose | pkg/moqttransport/server.go:199-208 | the object's step of one closing connection |
| ServerTransport.MOQTServerTransport.DataTrackHandlerFor | pkg/moqttransport/server.go:235-254 | the lookup in one session, or in all of them for an empty ID |
| ServerTransport.MOQTServerTransport.Close | pkg/moqttransport/server.go:266-311 | the loops close every connection and every handler exactly once and empty both registries |
| ServerTransport.MOQTServerTransport.RemoveConnection | pkg/moqttransport/server.go:313-317 | removes one connection |
| WatchSpec.NoLostUpdate | pkg/config/watch.go:108-140 | with writes that raise the time, in every interleaving: recorded time <= file time, equality means current is the file's content, recorded times strictly increase, only usable configs are delivered |
| WatchSpec.QuietPollCatchesUpIff | pkg/config/watch.go:108-140 | an undisturbed poll catches up iff the content is usable, and otherwise changes nothing |
| WatchSpec.PollTakesBothOrNeither | pkg/config/watch.go:123-137 | a poll with writes inside it records the time it saw together with the later content, or neither |
| WatchSpec.NotNewerIsIgnored | pkg/config/watch.go:119-121 | a file that is not newer is never taken, however often it is polled |
| WatchSpec.WriteDuringStartIsLostIff | pkg/config/watch.go:38-58 | a write between the first load and the first stat stays unseen iff it changed the content |
| WatchSpec.WriteIsSeenIff | pkg/config/watch.go:108-140 | wherever a poll is when a new content is written, the watcher ever takes it, if nothing else is written, iff it is usable and the time has been looked at and the file not loaded yet, or its time is newer than the one recorded or loaded; the poll under way and one more are then enough |
| WatchSpec.RaisingIsNotTheCondition | pkg/config/watch.go:115-137 | three runs in which raising the modification time and being seen differ |
| Watching.Config.Clone | pkg/config/watch.go:152-161 | a copy with the same value that shares nothing; an empty ALPN list becomes nil |
| Watching.Config.Validate | pkg/config/config.go:133-156 | valid iff there are an address and a protocol and every certificate file that is named exists; a certificate without a key names none |
| Watching.WatchFile | pkg/config/watch.go:30-65 | a watcher starts iff handler, load, validation and stat are all there; it begins as the value-level one and the first delivery is a copy |
| Watching.Watcher.Poll | pkg/config/watch.go:108-140 | the object's poll is the value-level stat, load and commit around an outside write; errors are reported exactly when a newer or unreadable file is not taken |
| Watching.Watcher.Current | pkg/config/watch.go:75-82 | a copy of the current config that shares nothing with it |
| Watching.ChangingACopy | pkg/config/watch.go:75-82 | whatever is written into the fields and the list of a handed-out copy, the watcher's config and its next copy stay the same |

## Left out

- QUIC, TLS, MOQT sessions and the MCP SDK: their calls are parameters that may answer anything; a connection is an identity with a fixed reported address.
- Clock readings: one per locked section, plus one for the end of a dial; acknowledgment timers fire at any time not before they are due.
- Retrying.Retry.CalculateDelay: delays are real numbers, so float rounding and the truncation to whole nanoseconds are not modelled.
- Retry.DoWithResult is not part of this model: it is the loop of Do with a result passed through.
- ControlConnection.ControlConn.Write: other calls on the same connection are not interleaved between its attempts; interleavings of sends, responses, timers and closing are in ControlSpec.
- JSON and YAML encoding: a message stands for its encoding or its encoding error. Which files exist is a parameter of `Watching.Config.Validate`.
- Metrics other than the sent, received, error, retry and acknowledgment counters and the connection gauge; rates, Prometheus text, HTTP.
- Restarting a stopped heartbeat: the control connection starts it once.
- The heartbeat's ticker and sendHeartbeat's wait for its callback: each beat is an event that succeeded or failed, and its own write through the track writer is not composed.
- Message handlers still running while the channel of StreamMessages is closed: nothing is claimed about them.
- DataTracks.DataTrackHandler.HandleSubscribe: publishers are not in a step machine of their own; a subscribe that slips past Close is in DataTracks.SlippedSubscribe.
- DataTracks.DataTrackHandler.BatchPublish: a negative batch size is excluded, because the loop then slices out of range; for a size of zero the rounds watched are a parameter.
- DataTrackHandler's single Publish, HandleRemoteTrack, receiveLoop and the track readers.
- Setting a slot to a nil publisher.
- AckTracking.AckTracker.Nack: the error text an acknowledgment message carries along with its status.
- Client.ClientConnection.Close: the closing of the received track and the cancelled read context are library calls without a state here.
- ServerTransport.MOQTServerTransport.RegisterConnection: connections and handlers are numbered rather than references, and one setup is one step.
- Network failures in session establishment: SessionSpec delivers every message, in any order; failing calls are in Client.MOQTClientTransport.Connect.
- generateSessionID's randomness: session IDs are assumed fresh, distinct and not empty.
- QUICStreamManager, config builders, option setters, logger, CLI, doctor checks, `mcpservice`, examples: field copies, text or plumbing.
