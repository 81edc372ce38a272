/** The data-track handler as an object: publishers, batched and streamed publishing, subscribers. */
module DataTracks {
  import opened Common
  import opened TrackSpec
  import opened Tracks
  import opened BatchSpec
  import U = SubsSpec

  const MAX_MESSAGE_SIZE := 10 * 1024 * 1024

  datatype SubscribeAnswer = Accepted | Rejected | AcceptFailed

  class DataTrackHandler {
    const sessionID: string
    const trackType: int
    const namespace: seq<string>
    var publishers: map<string, TrackWriter>
    var subscribers: map<string, nat>      // the current subscription of a track, by its number
    var subs: seq<U.Sub>                   // every subscription made, with its context and channel
    var closed: bool

    ghost function Footprint(): set<object>
      reads this
    {
      WritersOf(publishers)
    }

    // The objects a subscribe for this track replaces.
    ghost function Replaceable(track: string): set<object>
      reads this
    {
      if track in publishers then {publishers[track], publishers[track].slot} else {}
    }

    // Every publisher in the map has an open writer of its own.
    ghost predicate Publishing()
      reads this, Footprint()
    {
      OwnWriters(publishers) && forall t :: t in publishers ==> IsOpen(t)
    }

    ghost predicate IsOpen(track: string)
      requires track in publishers
      reads this, Footprint()
    {
      var w := publishers[track];
      assert w in Footprint() && w.slot in Footprint();
      w.Valid() && !w.closed
    }

    ghost function Subscriptions(): U.Subs
      reads this
    {
      U.Subs(subscribers, subs, closed, false)
    }

    ghost predicate Valid()
      reads this, Footprint()
    {
      Publishing() && U.Inv(Subscriptions())
    }

    constructor (sessionID: string, trackType: int, namespace: seq<string>)
      ensures Valid() && Footprint() == {} && Subscriptions() == U.NO_SUBS
      ensures this.sessionID == sessionID && this.trackType == trackType && this.namespace == namespace
    {
      this.sessionID, this.trackType, this.namespace := sessionID, trackType, namespace;
      publishers, subscribers, subs, closed := map[], map[], [], false;
    }

    /** A subscribe is accepted exactly for the handler's own namespace while it is open; the
        subscriber becomes the publisher of the track and an earlier one is closed. No other writer is
        touched. */
    method HandleSubscribe(ns: seq<string>, track: string, rw: nat, acceptErr: bool) returns (r: SubscribeAnswer)
      requires Publishing()
      modifies this`publishers, Replaceable(track)
      ensures Publishing() && forall o :: o in Footprint() && o !in old(Footprint()) ==> fresh(o)
      ensures r.Rejected? <==> closed || ns != namespace
      ensures r.AcceptFailed? <==> !closed && ns == namespace && acceptErr
      ensures !r.Accepted? ==> publishers == old(publishers)
      ensures !r.Accepted? ==> forall t :: t in publishers ==> publishers[t].View() == old(publishers[t].View())
      ensures r.Accepted? ==> Replaced(old(publishers), track, rw)
    {
      r := Decide(ns, acceptErr);
      if r.Accepted? {
        Accept(track, rw);
      }
    }

    method Decide(ns: seq<string>, acceptErr: bool) returns (r: SubscribeAnswer)
      ensures r.Rejected? <==> closed || ns != namespace
      ensures r.AcceptFailed? <==> !closed && ns == namespace && acceptErr
    {
      if closed {
        return Rejected;
      }
      var same := SameNamespace(ns);
      return if !same then Rejected else if acceptErr then AcceptFailed else Accepted;
    }

    // The part after the check of `closed` and the namespace; it looks at neither again.
    method Accept(track: string, rw: nat)
      requires Publishing()
      modifies this`publishers, Replaceable(track)
      ensures Publishing() && forall o :: o in Footprint() && o !in old(Footprint()) ==> fresh(o)
      ensures Replaced(old(publishers), track, rw)
    {
      var slot := new PublisherSlot();
      slot.Set(rw);
      var writer := new TrackWriter(slot);
      Install(track, rw, writer);
    }

    method SameNamespace(ns: seq<string>) returns (r: bool)
      ensures r <==> ns == namespace
    {
      if |ns| != |namespace| {
        return false;
      }
      for i := 0 to |namespace|
        invariant ns[..i] == namespace[..i]
      {
        if ns[i] != namespace[i] {
          return false;
        }
      }
      return true;
    }

    // The new publisher of a track is open and unused, and the old one is closed.
    ghost predicate Replaced(before: map<string, TrackWriter>, track: string, rw: nat)
      reads this, Footprint(), set t | t in before :: before[t]
    {
      && track in publishers && publishers == before[track := publishers[track]]
      && publishers[track] in Footprint() && publishers[track].slot in Footprint()
      && publishers[track].View() == Pen(false, StepSlot(EMPTY_SLOT, SetPub(rw)), 0, [])
      && (track in before ==> before[track].closed)
    }

    method Install(track: string, ghost rw: nat, writer: TrackWriter)
      requires Publishing() && writer.Valid() && writer.View() == Pen(false, StepSlot(EMPTY_SLOT, SetPub(rw)), 0, [])
      requires writer !in Footprint() && writer.slot !in Footprint()
      modifies this`publishers, Replaceable(track)
      ensures Publishing() && Footprint() <= old(Footprint()) + {writer, writer.slot}
      ensures publishers == old(publishers)[track := writer]
      ensures Replaced(old(publishers), track, rw)
    {
      OwnMore(publishers, track, writer);
      WritersPut(publishers, track, writer);
      CloseCurrent(track);
      publishers := publishers[track := writer];
    }

    method CloseCurrent(track: string)
      requires Publishing()
      modifies Replaceable(track)
      ensures forall t :: t in publishers && t != track ==> IsOpen(t)
      ensures track in publishers ==> publishers[track].closed
    {
      if track in publishers {
        publishers[track].Close();
      }
    }

    // ---- publishing ----

    /** The goroutines of one batch, finishing in the given order: the objects do not depend on it,
        and any message that cannot be encoded fails the batch. */
    method MarshalAll(batch: seq<Encoded>, ghost order: seq<nat>, finish: nat -> nat)
      returns (objects: seq<Payload>, err: Option<Error>)
      requires FinishesIn(finish, order, |batch|)
      ensures err.None? <==> AllEncode(batch)
      ensures err.None? ==> objects == Bytes(batch)
      ensures err.None? ==> |objects| == |batch| && forall i :: 0 <= i < |batch| ==> batch[i] == Encoded(objects[i])
      ensures err.Some? ==> Unencodable(err.value) in batch
    {
      var slots := new Payload[|batch|](_ => []);
      for t := 0 to |batch|
        invariant forall s :: 0 <= s < t ==> batch[order[s]].Encoded? && slots[order[s]] == batch[order[s]].bytes
      {
        var i := finish(t);
        if batch[i].Unencodable? {
          return [], Some(batch[i].err);
        }
        slots[i] := batch[i].bytes;
      }
      forall k | 0 <= k < |batch| ensures batch[k].Encoded? && slots[k] == batch[k].bytes {
        OrderCovers(order, |batch|, k);
        var s :| 0 <= s < |order| && order[s] == k;
      }
      objects, err := slots[..], None;
      assert objects == Bytes(batch);
    }

    /** Publishes the messages as one group. Nothing is written unless all of them encode; then the
        answer is the writer's, nil if it reaches its publisher and no library call fails. */
    method PublishStream(track: string, messages: seq<Encoded>, ghost order: seq<nat>, finish: nat -> nat, a: Answers)
      returns (r: Option<Error>)
      requires Valid()
      requires FinishesIn(finish, order, |messages|)
      modifies set t | t in publishers && t == track :: publishers[t]
      ensures Valid()
      ensures closed ==> r == Some(ConnectionClosed)
      ensures !closed && track !in publishers ==> r == Some(NoPublisher)
      ensures closed || !AllEncode(messages) ==> r.Some? && forall t :: t in publishers ==> publishers[t].log == old(publishers[t].log)
      ensures !closed && track in publishers && !AllEncode(messages) ==> Unencodable(r.value) in messages
      ensures !closed && track in publishers && AllEncode(messages) ==>
        var w := publishers[track];
        && r == CallResult(old(w.View()), a, |messages|)
        && w.View() == AfterCall(old(w.View()), Bytes(messages), a)
        && (r.None? ==> w.log == old(w.log) + PlaceAll(old(w.nextGroup), Bytes(messages)))
    {
      if closed {
        return Some(ConnectionClosed);
      }
      if track !in publishers {
        return Some(NoPublisher);
      }
      var pub := publishers[track];
      var objects, err := MarshalAll(messages, order, finish);
      if err.Some? {
        return err;
      }
      NilMeansWritten(pub.View(), objects, a);
      r := pub.WriteStream(objects, a);
    }

    /** Publishes in batches. It returns nil exactly when every batch encodes and its write succeeds;
        then it has written the encoded messages, in order, as the chunks of the list under
        consecutive group IDs. Otherwise it stops at the first batch that does not encode or whose
        write fails, with that error, and leaves behind the batches before it and what this write
        placed. A batch size of zero writes empty groups until a write fails; `rounds` is for how many
        rounds that is watched, and `ended` whether the call has returned by then. */
    method BatchPublish(track: string, messages: seq<Encoded>, batchSize: nat, ghost orders: nat -> seq<nat>,
                        finish: nat -> nat -> nat, answers: nat -> Answers, rounds: nat)
      returns (r: Option<Error>, ended: bool, ghost done: nat)
      requires Valid()
      requires InOrders(Batches(messages, batchSize, rounds), orders, finish)
      modifies set t | t in publishers && t == track :: publishers[t]
      ensures Valid()
      ensures closed ==> r == Some(ConnectionClosed)
      ensures !closed && track !in publishers ==> r == Some(NoPublisher)
      ensures ended <==> r.Some? || messages == [] || batchSize >= 1
      ensures messages != [] && batchSize >= 1 ==> Batches(messages, batchSize, rounds) == Chunks(messages, batchSize)
      ensures !closed && track in publishers ==>
        var w, cs := publishers[track], Batches(messages, batchSize, rounds);
        && Published(old(w.View()), w.View(), cs, answers, r, done)
        && (r.None? <==> forall j :: 0 <= j < |cs| ==> AllEncode(cs[j]) && CallResult(old(w.View()), answers(j), |cs[j]|).None?)
        && (r.None? && ended ==>
              && AllEncode(messages) && w.log[..|old(w.log)|] == old(w.log)
              && Payloads(w.log[|old(w.log)|..]) == Bytes(messages)
              && (messages != [] ==> w.log[|old(w.log)|..] == PlaceChunks(old(w.nextGroup), Chunks(Bytes(messages), batchSize))))
    {
      done := 0;
      if closed {
        return Some(ConnectionClosed), true, done;
      }
      if track !in publishers {
        return Some(NoPublisher), true, done;
      }
      var pub := publishers[track];
      ghost var before := pub.View();
      r, ended, done := PublishBatches(pub, messages, batchSize, orders, finish, answers, rounds);
      if r.None? && ended {
        PublishedAll(before, pub.View(), messages, batchSize, rounds, answers);
      }
    }

    method PublishBatches(pub: TrackWriter, messages: seq<Encoded>, batchSize: nat, ghost orders: nat -> seq<nat>,
                          finish: nat -> nat -> nat, answers: nat -> Answers, rounds: nat)
      returns (r: Option<Error>, ended: bool, ghost done: nat)
      requires pub.Valid()
      requires InOrders(Batches(messages, batchSize, rounds), orders, finish)
      modifies pub`nextGroup, pub`log
      ensures pub.Valid()
      ensures ended <==> r.Some? || messages == [] || batchSize >= 1
      ensures Published(old(pub.View()), pub.View(), Batches(messages, batchSize, rounds), answers, r, done)
    {
      ghost var cs := Batches(messages, batchSize, rounds);
      done := 0;
      ProgressStarts(pub.View(), cs, answers);
      BatchAt(messages, batchSize, rounds, 0);
      var i: nat, round: nat := 0, 0;
      while i < |messages| && (batchSize >= 1 || round < rounds)
        invariant pub.Valid() && round == done && AtBatch(messages, batchSize, rounds, i, done)
        invariant Progress(old(pub.View()), pub.View(), cs, answers, done)
        decreases |messages| - i, rounds - round
      {
        var e := Round(pub, messages, batchSize, orders, finish, answers, rounds, i, round, old(pub.View()));
        if e.Some? {
          return e, true, done;
        }
        NextBatch(messages, batchSize, rounds, i, done);
        i, round, done := i + batchSize, round + 1, done + 1;
      }
      ProgressEnds(old(pub.View()), pub.View(), cs, answers);
      r, ended := None, i >= |messages|;
    }

    // The body of the loop: slice the batch, then encode and write it.
    method Round(pub: TrackWriter, messages: seq<Encoded>, batchSize: nat, ghost orders: nat -> seq<nat>,
                 finish: nat -> nat -> nat, answers: nat -> Answers, ghost rounds: nat, i: nat, done: nat, ghost start: Pen)
      returns (r: Option<Error>)
      requires pub.Valid() && InOrders(Batches(messages, batchSize, rounds), orders, finish)
      requires i == IndexAfter(batchSize, done) && done < |Batches(messages, batchSize, rounds)|
      requires Progress(start, pub.View(), Batches(messages, batchSize, rounds), answers, done)
      modifies pub`nextGroup, pub`log
      ensures pub.Valid()
      ensures r.None? ==> Progress(start, pub.View(), Batches(messages, batchSize, rounds), answers, done + 1)
      ensures r.Some? ==> Published(start, pub.View(), Batches(messages, batchSize, rounds), answers, r, done)
    {
      BatchAt(messages, batchSize, rounds, done);
      var end := i + batchSize;
      if end > |messages| {
        end := |messages|;
      }
      OrderOf(Batches(messages, batchSize, rounds), orders, finish, done);
      r := PublishRound(pub, messages[i..end], orders(done), finish(done), answers, start,
                        Batches(messages, batchSize, rounds), done);
    }

    // Encodes a batch and writes it as one group.
    method PublishRound(pub: TrackWriter, batch: seq<Encoded>, ghost order: seq<nat>, finish: nat -> nat,
                        answers: nat -> Answers, ghost start: Pen, ghost cs: seq<seq<Encoded>>, done: nat)
      returns (r: Option<Error>)
      requires pub.Valid() && Progress(start, pub.View(), cs, answers, done) && done < |cs| && batch == cs[done]
      requires FinishesIn(finish, order, |batch|)
      modifies pub`nextGroup, pub`log
      ensures pub.Valid()
      ensures r.None? ==> Progress(start, pub.View(), cs, answers, done + 1)
      ensures r.Some? ==> Published(start, pub.View(), cs, answers, r, done)
    {
      var objects, err := MarshalAll(batch, order, finish);
      if err.Some? {
        return err;
      }
      RoundWritten(start, pub.View(), cs, answers, done);
      r := pub.WriteStream(objects, answers(done));
    }

    // ---- subscribers ----

    method Subscribe(track: string) returns (r: Option<Error>)
      requires Valid()
      modifies this`subscribers, this`subs
      ensures Valid() && (r.None? <==> !closed)
      ensures Subscriptions() == U.Step(old(Subscriptions()), U.Subscribe(track, false, false))
    {
      U.AddKeeps(Subscriptions(), track, false);
      if closed {
        return Some(ConnectionClosed);
      }
      Put(track, false);
      r := None;
    }

    // Also starts the goroutine that cleans up when the context of the new subscription ends.
    method StreamMessages(track: string) returns (r: Option<Error>)
      requires Valid()
      modifies this`subscribers, this`subs
      ensures Valid() && (r.None? <==> !closed)
      ensures Subscriptions() == U.Step(old(Subscriptions()), U.Subscribe(track, true, false))
    {
      U.AddKeeps(Subscriptions(), track, true);
      if closed {
        return Some(ConnectionClosed);
      }
      Put(track, true);
      r := None;
    }

    method Put(track: string, isStream: bool)
      modifies this`subscribers, this`subs
      ensures Subscriptions() == U.Add(old(Subscriptions()), track, isStream)
    {
      if track in subscribers {
        CancelSub(subscribers[track]);
      }
      subscribers, subs := subscribers[track := |subs|], subs + [U.Sub(track, isStream, false, false, 0)];
    }

    // The cancel function of one subscription; calling it again changes nothing.
    method CancelSub(k: nat)
      modifies this`subs
      ensures subs == U.Cancel(old(subs), k)
    {
      if k < |subs| {
        subs := subs[k := subs[k].(cancelled := true)];
      }
    }

    method Unsubscribe(track: string)
      requires Valid()
      modifies this`subscribers, this`subs
      ensures Valid() && Subscriptions() == U.Step(old(Subscriptions()), U.Unsubscribe(track))
    {
      U.RemoveKeeps(Subscriptions(), track);
      if track in subscribers {
        CancelSub(subscribers[track]);
        subscribers := subscribers - {track};
      }
    }

    // The goroutine of StreamMessages, once the context of its subscription has ended. It removes
    // the map entry only if that still has its own context.
    method CleanUp(k: nat)
      requires Valid() && U.CanClean(Subscriptions(), k)
      modifies this`subscribers, this`subs
      ensures Valid() && Subscriptions() == U.Step(old(Subscriptions()), U.Cleanup(k))
    {
      U.CleanKeeps(Subscriptions(), k);
      assert U.SubOk(Subscriptions(), k);
      assert subs[k := subs[k].(cancelled := true)] == subs;   // already cancelled
      var track := subs[k].track;
      if track in subscribers && subscribers[track] == k {
        CancelSub(k);
        subscribers := subscribers - {track};
      }
      CloseChannel(k);
    }

    // Closing a closed channel would panic.
    method CloseChannel(k: nat)
      requires k < |subs| && !subs[k].cleaned && subs[k].chanCloses == 0
      modifies this`subs
      ensures subs == old(subs)[k := old(subs)[k].(cleaned := true, chanCloses := 1)]
    {
      subs := subs[k := subs[k].(cleaned := true, chanCloses := subs[k].chanCloses + 1)];
    }

    /** Hands one object to the live subscriber of the track and to nobody else. `decodes` is the
        decoder's error and `handled` what the subscriber's handler answers. */
    method HandleData(track: string, size: nat, decodes: Option<Error>, handled: Option<Error>)
      returns (to: Option<nat>, err: Option<Error>)
      requires Valid()
      ensures to == if closed || size > MAX_MESSAGE_SIZE || decodes.Some? then None else U.Receiver(Subscriptions(), track)
      ensures to.Some? ==> err == handled
      ensures to.None? ==>
        (err == if closed then Some(ConnectionClosed)
                else if size > MAX_MESSAGE_SIZE then Some(MessageTooLarge)
                else if track !in subscribers then Some(NoSubscriber)
                else if decodes.Some? then decodes else Some(ContextDone))
    {
      if closed {
        return None, Some(ConnectionClosed);
      }
      if size > MAX_MESSAGE_SIZE {
        return None, Some(MessageTooLarge);
      }
      if track !in subscribers {
        return None, Some(NoSubscriber);
      }
      if decodes.Some? {
        return None, decodes;
      }
      if subs[subscribers[track]].cancelled {
        return None, Some(ContextDone);
      }
      return Some(subscribers[track]), handled;
    }

    /** Closes once: every publisher's writer is closed, every subscriber cancelled, both maps are
        emptied. */
    method Close()
      requires Valid()
      modifies this`closed, this`publishers, this`subscribers, this`subs, Footprint()
      ensures Valid() && closed
      ensures Subscriptions() == U.Drain(U.Step(old(Subscriptions()), U.CloseBegins))
      ensures !old(closed) ==> publishers == map[] && forall t :: t in old(publishers) ==> old(publishers)[t].closed
      ensures old(closed) ==> publishers == old(publishers)
      ensures old(closed) ==> forall t :: t in publishers ==> publishers[t].View() == old(publishers[t].View())
    {
      if closed {
        return;
      }
      U.StepKeeps(Subscriptions(), U.CloseBegins);
      ClosePublishers();
      CancelSubscribers();
    }

    method ClosePublishers()
      requires Publishing()
      modifies this`publishers, Footprint()
      ensures publishers == map[] && forall t :: t in old(publishers) ==> old(publishers)[t].closed
    {
      var todo := publishers.Keys;
      while todo != {}
        invariant todo <= publishers.Keys && publishers == old(publishers)
        invariant forall t :: t in publishers ==>
          publishers[t] in Footprint() && publishers[t].slot in Footprint() && publishers[t].Valid()
        invariant forall t :: t in publishers && t !in todo ==> publishers[t].closed
        decreases todo
      {
        var track :| track in todo;
        publishers[track].Close();
        todo := todo - {track};
      }
      publishers := map[];
    }

    method CancelSubscribers()
      requires U.Inv(Subscriptions()) && !closed
      modifies this`closed, this`subscribers, this`subs
      ensures closed && U.Inv(Subscriptions())
      ensures Subscriptions() == U.Drain(U.Step(old(Subscriptions()), U.CloseBegins))
    {
      ghost var s := U.Step(Subscriptions(), U.CloseBegins);
      U.StepKeeps(Subscriptions(), U.CloseBegins);
      U.DrainKeeps(s);
      CancelEnds(s);
      closed := true;
      var todo := subscribers.Keys;
      while todo != {}
        invariant todo <= s.current.Keys && subscribers == s.current && closed
        invariant subs == CancelledBut(s, todo)
        decreases todo
      {
        var track :| track in todo;
        CancelOneMore(s, todo, track);
        CancelSub(subscribers[track]);
        todo := todo - {track};
      }
      subscribers := map[];
    }
  }

  // No two tracks share a writer or a slot.
  ghost predicate OwnWriters(m: map<string, TrackWriter>) {
    forall t, u :: t in m && u in m && t != u ==> m[t] != m[u] && m[t].slot != m[u].slot
  }

  ghost function WritersOf(m: map<string, TrackWriter>): set<object> {
    (set t | t in m :: m[t]) + (set t | t in m :: m[t].slot)
  }

  lemma WritersPut(m: map<string, TrackWriter>, track: string, w: TrackWriter)
    ensures WritersOf(m[track := w]) <= WritersOf(m) + {w, w.slot}
  {
  }

  lemma OwnMore(m: map<string, TrackWriter>, track: string, w: TrackWriter)
    requires OwnWriters(m) && forall t :: t in m ==> m[t] != w && m[t].slot != w.slot
    ensures OwnWriters(m[track := w])
  {
  }

  /** A subscribe that passed the check of `closed` before Close set it, and goes on after Close has
      emptied the handler, leaves an open publisher in a closed handler; another Close does not close
      it. Any other subscribe is rejected there, which HandleSubscribe says. */
  method SlippedSubscribe(h: DataTrackHandler, track: string, rw: nat)
    requires h.Valid() && h.closed && h.publishers == map[]
    modifies h
    ensures h.Valid() && h.closed && h.publishers.Keys == {track} && !h.publishers[track].closed
    ensures h.publishers[track].slot.View() == StepSlot(EMPTY_SLOT, SetPub(rw))
  {
    h.Accept(track, rw);
    h.Close();
  }

  // ---- walking the subscribers ----

  // The subscriptions while Close cancels the current ones; `todo` are the tracks not reached yet.
  function CancelledBut(s: U.Subs, todo: set<string>): seq<U.Sub> {
    seq(|s.all|, k requires 0 <= k < |s.all| =>
      if U.IsCurrent(s, k) && s.all[k].track !in todo then s.all[k].(cancelled := true) else s.all[k])
  }

  lemma CancelOneMore(s: U.Subs, todo: set<string>, track: string)
    requires U.Inv(s) && track in todo && track in s.current
    ensures CancelledBut(s, todo - {track}) == U.Cancel(CancelledBut(s, todo), s.current[track])
  {
  }

  lemma CancelEnds(s: U.Subs)
    requires s.draining
    ensures CancelledBut(s, s.current.Keys) == s.all
    ensures CancelledBut(s, {}) == U.Drain(s).all
  {
  }

  // ---- batches ----

  // The batches the loop takes, one a round; with a size of zero they are empty and do not end.
  function Batches(messages: seq<Encoded>, size: nat, rounds: nat): seq<seq<Encoded>> {
    if messages == [] then [] else if size >= 1 then Chunks(messages, size) else seq(rounds, _ => [])
  }

  // The goroutines of one batch finish in this order.
  ghost predicate FinishesIn(finish: nat -> nat, order: seq<nat>, n: nat) {
    IsOrder(order, n) && forall t :: 0 <= t < n ==> finish(t) == order[t]
  }

  ghost predicate InOrders(cs: seq<seq<Encoded>>, orders: nat -> seq<nat>, finish: nat -> nat -> nat) {
    forall j :: 0 <= j < |cs| ==> FinishesIn(finish(j), orders(j), |cs[j]|)
  }

  // The loop has index i after `done` rounds; it goes on as long as there are batches.
  predicate AtBatch(messages: seq<Encoded>, size: nat, rounds: nat, i: nat, done: nat) {
    var cs := Batches(messages, size, rounds);
    && i == IndexAfter(size, done) && done <= |cs| && (size == 0 ==> i == 0)
    && (done < |cs| <==> i < |messages| && (size >= 1 || done < rounds))
  }

  lemma BatchAt(messages: seq<Encoded>, size: nat, rounds: nat, j: nat)
    requires j <= |Batches(messages, size, rounds)|
    ensures IndexAfter(size, j) >= 0 && AtBatch(messages, size, rounds, IndexAfter(size, j), j)
    ensures var cs, i := Batches(messages, size, rounds), IndexAfter(size, j);
      j < |cs| ==> i <= |messages| && cs[j] == messages[i..Least(i + size, |messages|)]
  {
    IndexGrows(size, j);
    if size == 0 {
      IndexStays(size, j);
    } else if messages != [] {
      ChunkAt(messages, size, j);
    }
  }

  lemma NextBatch(messages: seq<Encoded>, size: nat, rounds: nat, i: nat, done: nat)
    requires AtBatch(messages, size, rounds, i, done) && done < |Batches(messages, size, rounds)|
    ensures AtBatch(messages, size, rounds, i + size, done + 1)
  {
    BatchAt(messages, size, rounds, done + 1);
  }

  lemma OrderOf(cs: seq<seq<Encoded>>, orders: nat -> seq<nat>, finish: nat -> nat -> nat, j: nat)
    requires InOrders(cs, orders, finish) && j < |cs|
    ensures FinishesIn(finish(j), orders(j), |cs[j]|)
  {
  }

  // A batch that encodes and whose write succeeds.
  ghost predicate RoundOk(p: Pen, batch: seq<Encoded>, a: Answers) {
    AllEncode(batch) && CallResult(p, a, |batch|).None?
  }

  ghost predicate RoundsOk(p: Pen, cs: seq<seq<Encoded>>, answers: nat -> Answers, done: nat)
    requires done <= |cs|
  {
    forall j :: 0 <= j < done ==> RoundOk(p, cs[j], answers(j))
  }

  // The writer after `done` whole batches.
  ghost function AfterRounds(start: Pen, cs: seq<seq<Encoded>>, answers: nat -> Answers, done: nat): Pen
    requires done <= |cs| && RoundsOk(start, cs, answers, done)
  {
    start.(next := (start.next + done) % GROUP_IDS, log := start.log + PlaceChunks(start.next, ByteChunks(cs[..done])))
  }

  // The first `done` batches are written as whole groups.
  ghost predicate Progress(start: Pen, p: Pen, cs: seq<seq<Encoded>>, answers: nat -> Answers, done: nat) {
    done <= |cs| && RoundsOk(start, cs, answers, done) && p.next < GROUP_IDS && p == AfterRounds(start, cs, answers, done)
  }

  // The loop has stopped after `done` whole batches, at the end or at the first that failed.
  ghost predicate Published(start: Pen, p: Pen, cs: seq<seq<Encoded>>, answers: nat -> Answers, r: Option<Error>, done: nat) {
    && done <= |cs| && RoundsOk(start, cs, answers, done) && (r.None? <==> done == |cs|)
    && var last := AfterRounds(start, cs, answers, done);
       if done < |cs| && AllEncode(cs[done]) then
         r == CallResult(start, answers(done), |cs[done]|) && p == AfterCall(last, Bytes(cs[done]), answers(done))
       else p == last && (r.Some? ==> Unencodable(r.value) in cs[done])
  }

  lemma ProgressStarts(p: Pen, cs: seq<seq<Encoded>>, answers: nat -> Answers)
    requires p.next < GROUP_IDS
    ensures Progress(p, p, cs, answers, 0)
  {
    assert ByteChunks(cs[..0]) == [];
  }

  lemma ProgressEnds(start: Pen, p: Pen, cs: seq<seq<Encoded>>, answers: nat -> Answers)
    requires Progress(start, p, cs, answers, |cs|)
    ensures Published(start, p, cs, answers, None, |cs|)
  {
  }

  lemma RoundWritten(start: Pen, p: Pen, cs: seq<seq<Encoded>>, answers: nat -> Answers, done: nat)
    requires Progress(start, p, cs, answers, done) && done < |cs| && AllEncode(cs[done])
    ensures var q, r := AfterCall(p, Bytes(cs[done]), answers(done)), CallResult(p, answers(done), |cs[done]|);
      && (r.None? ==> Progress(start, q, cs, answers, done + 1))
      && (r.Some? ==> Published(start, q, cs, answers, r, done))
  {
    if CallResult(p, answers(done), |cs[done]|).None? {
      RoundSucceeds(start, p, cs, answers, done);
    }
  }

  lemma RoundSucceeds(start: Pen, p: Pen, cs: seq<seq<Encoded>>, answers: nat -> Answers, done: nat)
    requires Progress(start, p, cs, answers, done) && done < |cs| && AllEncode(cs[done])
    requires CallResult(p, answers(done), |cs[done]|).None?
    ensures Progress(start, AfterCall(p, Bytes(cs[done]), answers(done)), cs, answers, done + 1)
  {
    NilMeansWritten(p, Bytes(cs[done]), answers(done));
    assert RoundsOk(start, cs, answers, done + 1);
    NextRounds(start, cs, answers, done);
  }

  lemma NextRounds(start: Pen, cs: seq<seq<Encoded>>, answers: nat -> Answers, done: nat)
    requires done < |cs| && RoundsOk(start, cs, answers, done + 1)
    ensures var p := AfterRounds(start, cs, answers, done);
      AfterRounds(start, cs, answers, done + 1)
        == p.(next := (p.next + 1) % GROUP_IDS, log := p.log + PlaceAll(p.next, Bytes(cs[done])))
  {
    NextModulo(start.next + done);
    RoundsLog(start, cs, answers, done);
  }

  lemma RoundsLog(start: Pen, cs: seq<seq<Encoded>>, answers: nat -> Answers, done: nat)
    requires done < |cs| && RoundsOk(start, cs, answers, done + 1)
    ensures AfterRounds(start, cs, answers, done + 1).log
         == AfterRounds(start, cs, answers, done).log + PlaceAll((start.next + done) % GROUP_IDS, Bytes(cs[done]))
  {
    LogGrows(start.next, start.log, cs, done);
  }

  lemma LogGrows(g: nat, log: seq<Placed>, cs: seq<seq<Encoded>>, done: nat)
    requires done < |cs| && forall j :: 0 <= j <= done ==> AllEncode(cs[j])
    ensures log + PlaceChunks(g, ByteChunks(cs[..done + 1]))
         == log + PlaceChunks(g, ByteChunks(cs[..done])) + PlaceAll((g + done) % GROUP_IDS, Bytes(cs[done]))
  {
    RoundDone(g, cs, done);
    Append(log, PlaceChunks(g, ByteChunks(cs[..done])), PlaceAll((g + done) % GROUP_IDS, Bytes(cs[done])));
  }

  lemma Append(a: seq<Placed>, b: seq<Placed>, c: seq<Placed>)
    ensures a + (b + c) == a + b + c
  {
  }

  lemma PublishedAll(start: Pen, p: Pen, messages: seq<Encoded>, size: nat, rounds: nat, answers: nat -> Answers)
    requires messages == [] || size >= 1
    requires var cs := Batches(messages, size, rounds); Published(start, p, cs, answers, None, |cs|)
    ensures AllEncode(messages) && |start.log| <= |p.log| && p.log[..|start.log|] == start.log
    ensures Payloads(p.log[|start.log|..]) == Bytes(messages)
    ensures messages != [] ==> p.log[|start.log|..] == PlaceChunks(start.next, Chunks(Bytes(messages), size))
  {
    var cs := Batches(messages, size, rounds);
    assert cs[..|cs|] == cs;
    if messages != [] {
      BatchesEncodeIff(messages, size);
      BatchesOfBytes(messages, size);
      PlacedBatchesAreMessages(start.next, messages, size);
      assert p.log[|start.log|..] == PlaceChunks(start.next, ByteChunks(cs));
    }
  }

  lemma RoundDone(g: nat, cs: seq<seq<Encoded>>, done: nat)
    requires done < |cs| && forall j :: 0 <= j <= done ==> AllEncode(cs[j])
    ensures PlaceChunks(g, ByteChunks(cs[..done + 1]))
         == PlaceChunks(g, ByteChunks(cs[..done])) + PlaceAll((g + done) % GROUP_IDS, Bytes(cs[done]))
  {
    assert ByteChunks(cs[..done + 1])[..done] == ByteChunks(cs[..done]);
  }
}
