/** The subscribers of a data-track handler over every interleaving of Subscribe, StreamMessages,
    Unsubscribe, context cancellation, cleanup goroutines and Close. */
module SubsSpec {
  import opened Common

  // One subscription ever made. `cancelled` is its own context; a stream also has a message channel
  // and a goroutine that cleans up once the context is cancelled.
  datatype Sub = Sub(track: string, isStream: bool, cancelled: bool, cleaned: bool, chanCloses: nat)

  datatype Subs = Subs(current: map<string, nat>, all: seq<Sub>, closed: bool, draining: bool)

  const NO_SUBS := Subs(map[], [], false, false)

  datatype Event =
    | Subscribe(track: string, isStream: bool, stale: bool)   // stale: read `closed` before Close set it
    | Unsubscribe(track: string)
    | ParentCancelled(sub: nat)
    | Cleanup(sub: nat)
    | CloseBegins
    | CloseDrains

  function Cancel(all: seq<Sub>, k: nat): seq<Sub> {
    if k < |all| then all[k := all[k].(cancelled := true)] else all
  }

  function Add(s: Subs, track: string, isStream: bool): Subs {
    var all := if track in s.current then Cancel(s.all, s.current[track]) else s.all;
    s.(current := s.current[track := |s.all|], all := all + [Sub(track, isStream, false, false, 0)])
  }

  function Remove(s: Subs, track: string): Subs {
    if track in s.current then s.(current := s.current - {track}, all := Cancel(s.all, s.current[track])) else s
  }

  predicate CanClean(s: Subs, k: nat) {
    k < |s.all| && s.all[k].isStream && s.all[k].cancelled && !s.all[k].cleaned
  }

  predicate IsCurrent(s: Subs, k: nat) {
    k < |s.all| && s.all[k].track in s.current && s.current[s.all[k].track] == k
  }

  function Clean(s: Subs, k: nat): Subs
    requires CanClean(s, k)
  {
    s.(current := if IsCurrent(s, k) then s.current - {s.all[k].track} else s.current,
       all := s.all[k := s.all[k].(cleaned := true, chanCloses := s.all[k].chanCloses + 1)])
  }

  function Drain(s: Subs): Subs {
    if !s.draining then s
    else s.(draining := false, current := map[],
            all := seq(|s.all|, k requires 0 <= k < |s.all| =>
              if IsCurrent(s, k) then s.all[k].(cancelled := true) else s.all[k]))
  }

  function Step(s: Subs, ev: Event): Subs {
    match ev
    case Subscribe(track, isStream, stale) => if s.closed && !stale then s else Add(s, track, isStream)
    case Unsubscribe(track) => Remove(s, track)
    case ParentCancelled(k) => s.(all := Cancel(s.all, k))
    case Cleanup(k) => if CanClean(s, k) then Clean(s, k) else s
    case CloseBegins => if s.closed then s else s.(closed := true, draining := true)
    case CloseDrains => Drain(s)
  }

  function Run(evs: seq<Event>): Subs {
    if evs == [] then NO_SUBS else Step(Run(evs[..|evs| - 1]), evs[|evs| - 1])
  }

  ghost predicate Inv(s: Subs) {
    && (forall t :: t in s.current ==> s.current[t] < |s.all| && s.all[s.current[t]].track == t && !s.all[s.current[t]].cleaned)
    && (forall k :: 0 <= k < |s.all| ==> SubOk(s, k))
  }

  ghost predicate SubOk(s: Subs, k: nat)
    requires k < |s.all|
  {
    && (!s.all[k].cancelled ==> IsCurrent(s, k))
    && s.all[k].chanCloses == (if s.all[k].cleaned then 1 else 0)
    && (s.all[k].cleaned ==> s.all[k].isStream && s.all[k].cancelled)
    && (IsCurrent(s, k) ==> forall j :: k < j < |s.all| ==> s.all[j].track != s.all[k].track)
  }

  lemma AddKeeps(s: Subs, track: string, isStream: bool)
    requires Inv(s)
    ensures Inv(Add(s, track, isStream))
  {
    var t := Add(s, track, isStream);
    forall k | 0 <= k < |s.all| ensures SubOk(t, k) {
      assert SubOk(s, k);
      assert IsCurrent(t, k) ==> IsCurrent(s, k) && s.all[k].track != track;
    }
    assert SubOk(t, |s.all|);
  }

  lemma RemoveKeeps(s: Subs, track: string)
    requires Inv(s)
    ensures Inv(Remove(s, track))
  {
    forall k | 0 <= k < |s.all| ensures SubOk(Remove(s, track), k) {
      assert SubOk(s, k);
    }
  }

  lemma CancelKeeps(s: Subs, j: nat)
    requires Inv(s)
    ensures Inv(s.(all := Cancel(s.all, j)))
  {
    var t := s.(all := Cancel(s.all, j));
    forall k | 0 <= k < |s.all| ensures SubOk(t, k) {
      assert SubOk(s, k);
      assert IsCurrent(t, k) == IsCurrent(s, k);
    }
  }

  lemma CleanKeeps(s: Subs, j: nat)
    requires Inv(s) && CanClean(s, j)
    ensures Inv(Clean(s, j))
  {
    forall k | 0 <= k < |s.all| ensures SubOk(Clean(s, j), k) {
      assert SubOk(s, k);
    }
  }

  lemma DrainKeeps(s: Subs)
    requires Inv(s)
    ensures Inv(Drain(s))
  {
    forall k | 0 <= k < |s.all| ensures SubOk(Drain(s), k) {
      assert SubOk(s, k);
    }
  }

  lemma StepKeeps(s: Subs, ev: Event)
    requires Inv(s)
    ensures Inv(Step(s, ev))
  {
    match ev
    case Subscribe(track, isStream, _) => AddKeeps(s, track, isStream);
    case Unsubscribe(track) => RemoveKeeps(s, track);
    case ParentCancelled(k) => CancelKeeps(s, k);
    case Cleanup(k) =>
      if CanClean(s, k) {
        CleanKeeps(s, k);
      }
    case CloseBegins =>
      forall k | 0 <= k < |s.all| ensures SubOk(Step(s, ev), k) {
        assert SubOk(s, k);
      }
    case CloseDrains => DrainKeeps(s);
  }

  lemma {:induction false} RunsKeep(evs: seq<Event>)
    ensures Inv(Run(evs))
  {
    if evs != [] {
      RunsKeep(evs[..|evs| - 1]);
      StepKeeps(Run(evs[..|evs| - 1]), evs[|evs| - 1]);
    }
  }

  /** In every run each track has at most one subscriber whose context is not cancelled: it is the
      map entry and the latest subscription of that track; and each message channel is closed at
      most once, by its cleanup. */
  lemma {:induction false} OneLiveSubscriber(evs: seq<Event>)
    ensures var s := Run(evs);
      && (forall k :: 0 <= k < |s.all| && !s.all[k].cancelled ==>
            && IsCurrent(s, k)
            && forall j :: k < j < |s.all| ==> s.all[j].track != s.all[k].track)
      && (forall k :: 0 <= k < |s.all| ==> s.all[k].chanCloses <= 1 && (s.all[k].chanCloses == 1 <==> s.all[k].cleaned))
  {
    RunsKeep(evs);
    var s := Run(evs);
    forall k | 0 <= k < |s.all|
      ensures s.all[k].chanCloses <= 1 && (s.all[k].chanCloses == 1 <==> s.all[k].cleaned)
      ensures !s.all[k].cancelled ==> IsCurrent(s, k) && forall j :: k < j < |s.all| ==> s.all[j].track != s.all[k].track
    {
      assert SubOk(s, k);
    }
  }

  // Which subscriber HandleData hands a message of this track to.
  function Receiver(s: Subs, track: string): Option<nat> {
    if track in s.current && s.current[track] < |s.all| && !s.all[s.current[track]].cancelled then Some(s.current[track])
    else None
  }

  /** In every run data reaches a subscriber exactly when it is the live one of that track. */
  lemma {:induction false} DataReachesTheLiveOne(evs: seq<Event>, track: string, k: nat)
    ensures var s := Run(evs);
      Receiver(s, track) == Some(k) <==> k < |s.all| && s.all[k].track == track && !s.all[k].cancelled
  {
    RunsKeep(evs);
    if k < |Run(evs).all| {
      assert SubOk(Run(evs), k);
    }
  }

  /** What each call does to who receives: an accepted Subscribe makes the new subscription the receiver
      of its track and ends the earlier one, Unsubscribe leaves the track without a receiver, and neither
      touches another track. */
  lemma CallsDecideReceiver(evs: seq<Event>, track: string, isStream: bool, stale: bool, other: string)
    requires other != track
    ensures var s := Run(evs);
      var t, u := Step(s, Subscribe(track, isStream, stale)), Step(s, Unsubscribe(track));
      && (s.closed && !stale ==> t == s)
      && (!s.closed || stale ==>
            && |t.all| == |s.all| + 1 && t.all[|s.all|] == Sub(track, isStream, false, false, 0)
            && Receiver(t, track) == Some(|s.all|) && Receiver(t, other) == Receiver(s, other)
            && forall k :: 0 <= k < |s.all| && s.all[k].track == track ==> t.all[k].cancelled)
      && Receiver(u, track) == None && Receiver(u, other) == Receiver(s, other)
      && |u.all| == |s.all| && (forall k :: 0 <= k < |s.all| && s.all[k].track == track ==> u.all[k].cancelled)
  {
    var s := Run(evs);
    RunsKeep(evs);
    AddKeeps(s, track, isStream);
    RemoveKeeps(s, track);
    forall k | 0 <= k < |s.all| && s.all[k].track == track
      ensures Add(s, track, isStream).all[k].cancelled && Remove(s, track).all[k].cancelled
    {
      assert SubOk(s, k);
    }
  }

  /** When its context ends a subscription receives nothing more, and no other is affected; its cleanup
      closes its channel and takes it out of the map if it is still there. */
  lemma EndedReceivesNothing(evs: seq<Event>, k: nat)
    requires k < |Run(evs).all|
    ensures var s := Run(evs);
      var t, c := Step(s, ParentCancelled(k)), Step(s, Cleanup(k));
      && |t.all| == |s.all| && t.all[k].cancelled && t.current == s.current
      && (forall j :: 0 <= j < |s.all| && j != k ==> t.all[j] == s.all[j])
      && (s.all[k].isStream && s.all[k].cancelled && !s.all[k].cleaned ==>
            && c.all == s.all[k := s.all[k].(cleaned := true, chanCloses := 1)]
            && !IsCurrent(c, k) && c.current.Keys == s.current.Keys - (if IsCurrent(s, k) then {s.all[k].track} else {}))
  {
    RunsKeep(evs);
    assert SubOk(Run(evs), k);
  }

  /** Close, in its two parts, leaves nobody live and the map empty. */
  lemma CloseEmpties(evs: seq<Event>)
    ensures var s := Run(evs);
      && (!s.closed ==> Step(s, CloseBegins) == s.(closed := true, draining := true))
      && (s.draining && s.closed ==> Emptied(Step(s, CloseDrains)) && !SomeoneLive(Step(s, CloseDrains)))
  {
    RunsKeep(evs);
    DrainKeeps(Run(evs));
    if Run(evs).draining {
      NobodyLive(Step(Run(evs), CloseDrains));
    }
  }

  /** A cleanup that runs after its subscriber was replaced leaves every entry of the map alone. */
  lemma StaleCleanupIsHarmless(evs: seq<Event>, k: nat, newer: nat)
    requires var s := Run(evs); k < newer < |s.all| && s.all[newer].track == s.all[k].track
    ensures Step(Run(evs), Cleanup(k)).current == Run(evs).current
    ensures forall j :: 0 <= j < |Run(evs).all| && j != k ==> Step(Run(evs), Cleanup(k)).all[j] == Run(evs).all[j]
  {
    RunsKeep(evs);
    assert SubOk(Run(evs), k);
  }

  predicate SomeoneLive(s: Subs) {
    exists k :: 0 <= k < |s.all| && !s.all[k].cancelled
  }

  // Close has run and emptied the map.
  predicate Emptied(s: Subs) {
    s.closed && !s.draining && s.current == map[]
  }

  /** In an emptied handler nobody is live, and a step makes somebody live exactly when it is a
      Subscribe that slipped past Close; any other step leaves the handler emptied. */
  lemma {:induction false} LiveAfterCloseIff(evs: seq<Event>, ev: Event)
    requires Emptied(Run(evs))
    ensures !SomeoneLive(Run(evs))
    ensures SomeoneLive(Step(Run(evs), ev)) <==> ev.Subscribe? && ev.stale
    ensures !(ev.Subscribe? && ev.stale) ==> Emptied(Step(Run(evs), ev))
  {
    RunsKeep(evs);
    NobodyLive(Run(evs));
    var t := Step(Run(evs), ev);
    if ev.Subscribe? && ev.stale {
      assert !t.all[|t.all| - 1].cancelled;
    } else {
      StepKeeps(Run(evs), ev);
      NobodyLive(t);
    }
  }

  lemma NobodyLive(s: Subs)
    requires Inv(s) && s.current == map[]
    ensures !SomeoneLive(s)
  {
    forall k | 0 <= k < |s.all| ensures s.all[k].cancelled {
      assert SubOk(s, k);
    }
  }

  predicate NoneSlips(more: seq<Event>) {
    forall i :: 0 <= i < |more| && more[i].Subscribe? ==> !more[i].stale
  }

  /** After Close has emptied the handler, every subscriber stays cancelled and the map empty exactly
      when no Subscribe that slipped past Close follows. */
  lemma {:induction false} CloseCancelsAll(evs: seq<Event>, more: seq<Event>)
    requires Emptied(Run(evs))
    ensures (forall n :: 0 <= n <= |more| ==> !SomeoneLive(Run(evs + more[..n]))) <==> NoneSlips(more)
    ensures NoneSlips(more) ==> Emptied(Run(evs + more))
  {
    if NoneSlips(more) {
      forall n | 0 <= n <= |more| ensures Emptied(Run(evs + more[..n])) && !SomeoneLive(Run(evs + more[..n])) {
        StaysEmptied(evs, more[..n]);
        LiveAfterCloseIff(evs + more[..n], CloseBegins);
      }
      assert more[..|more|] == more;
    } else {
      var i := FirstSlip(more);
      StaysEmptied(evs, more[..i]);
      LiveAfterCloseIff(evs + more[..i], more[i]);
      OneMore(evs, more, i);
      assert SomeoneLive(Run(evs + more[..i + 1]));
    }
  }

  lemma OneMore(evs: seq<Event>, more: seq<Event>, i: nat)
    requires i < |more|
    ensures Run(evs + more[..i + 1]) == Step(Run(evs + more[..i]), more[i])
  {
    assert (evs + more[..i + 1])[..|evs| + i] == evs + more[..i];
  }

  lemma {:induction false} FirstSlip(more: seq<Event>) returns (i: nat)
    requires !NoneSlips(more)
    ensures i < |more| && more[i].Subscribe? && more[i].stale && NoneSlips(more[..i])
  {
    var n := |more| - 1;
    if NoneSlips(more[..n]) {
      assert forall j :: 0 <= j < n ==> more[..n][j] == more[j];
      i := n;
    } else {
      i := FirstSlip(more[..n]);
      assert more[..n][..i] == more[..i];
    }
  }

  lemma {:induction false} StaysEmptied(evs: seq<Event>, more: seq<Event>)
    requires Emptied(Run(evs)) && NoneSlips(more)
    ensures Emptied(Run(evs + more))
  {
    if more == [] {
      assert evs + more == evs;
    } else {
      var n := |more| - 1;
      assert more[..n + 1] == more;
      StaysEmptied(evs, more[..n]);
      LiveAfterCloseIff(evs + more[..n], more[n]);
      OneMore(evs, more, n);
    }
  }

  /** A Subscribe that read `closed` before Close set it and takes the mutex after Close stays live
      in a closed handler. */
  lemma SlippedSubscribeStaysLive(track: string)
    ensures var s := Run([CloseBegins, CloseDrains, Subscribe(track, true, true)]);
      s.closed && !s.draining && Receiver(s, track) == Some(0)
  {
    var evs := [CloseBegins, CloseDrains, Subscribe(track, true, true)];
    assert evs[..2][..1][..0] == [] && evs[..2][..1] == [evs[0]] && evs[..2] == [evs[0], evs[1]];
    assert Run(evs[..2][..1]) == Subs(map[], [], true, true);
    assert Run(evs[..2]) == Subs(map[], [], true, false);
  }
}
