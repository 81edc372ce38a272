/** A track writer over every sequence of its calls: each call is an allocation and object writes of the
    interleaved model, so the IDs it uses are as unique as there. */
module WriterRuns {
  import opened Common
  import opened TrackSpec
  import opened Tracks

  // A call of Write (one object) or WriteStream, or something that happens to the slot or the writer
  // between calls.
  datatype Act = Send(objects: seq<Payload>, answers: Answers) | OnSlot(event: SlotEvent) | Shut

  function Do(p: Pen, act: Act): Pen {
    match act
    case Send(objects, a) => AfterCall(p, objects, a)
    case OnSlot(ev) => p.(slot := StepSlot(p.slot, ev))
    case Shut => p.(closed := true, slot := StepSlot(p.slot, SlotEvent.Clear))
  }

  function After(acts: seq<Act>): Pen {
    if acts == [] then Pen(false, EMPTY_SLOT, 0, []) else Do(After(acts[..|acts| - 1]), acts[|acts| - 1])
  }

  // The call reaches a publisher: the writer is open, the slot holds one and the context is not done.
  predicate Arrives(p: Pen, act: Act) {
    act.Send? && !p.closed && p.slot.readyCloses > 0 && !p.slot.cleared && p.slot.pub.Some? && !act.answers.ctxFirst
  }

  /** How many calls have reached a publisher, whatever came of them. */
  function Arrived(acts: seq<Act>): nat {
    if acts == [] then 0
    else Arrived(acts[..|acts| - 1]) + if Arrives(After(acts[..|acts| - 1]), acts[|acts| - 1]) then 1 else 0
  }

  // How many objects a call that arrives gets written: none if the group does not open, otherwise those
  // before the first failure.
  ghost predicate Written(a: Answers, n: nat, k: nat) {
    && k <= n
    && (a.open.Some? ==> k == 0)
    && (a.open.None? ==> (forall j :: 0 <= j < k ==> a.write(j).None?) && (k < n ==> a.write(k).Some?))
  }

  lemma {:induction false} PlacedIsWritten(a: Answers, n: nat)
    ensures Written(a, n, PlacedOf(a, n))
  {
  }

  // ---- the call as steps of the interleaved model ----

  function Steps(call: nat, k: nat): seq<WriteEvent> {
    seq(k, _ => WriteObject(call, true))
  }

  // The events of one call that arrives: allocation, k objects, and the failing one if there is one.
  function EventsOf(call: nat, objects: seq<Payload>, a: Answers): seq<WriteEvent> {
    var k := PlacedOf(a, |objects|);
    [Allocate(objects, a.open.None?)] + Steps(call, k) + if a.open.None? && k < |objects| then [WriteObject(call, false)] else []
  }

  function Trace(acts: seq<Act>): seq<WriteEvent> {
    if acts == [] then []
    else
      var before, act := acts[..|acts| - 1], acts[|acts| - 1];
      Trace(before) + if Arrives(After(before), act) then EventsOf(Arrived(before), act.objects, act.answers) else []
  }

  lemma {:induction false} RunSnoc(evs: seq<WriteEvent>, ev: WriteEvent)
    ensures RunWriter(evs + [ev]) == StepWriter(RunWriter(evs), ev)
  {
    assert (evs + [ev])[..|evs|] == evs;
  }

  // The writer after k successful object writes of one call.
  function Grown(w: Writer, call: nat, k: nat): Writer
    requires call < |w.calls| && k <= |w.calls[call].objects|
  {
    w.(calls := w.calls[call := w.calls[call].(written := k)],
       log := w.log + PlaceAll(w.calls[call].group, w.calls[call].objects[..k]))
  }

  lemma {:induction false} GrowStep(w: Writer, call: nat, k: nat)
    requires call < |w.calls| && !w.calls[call].failed && k < |w.calls[call].objects|
    ensures StepWriter(Grown(w, call, k), WriteObject(call, true)) == Grown(w, call, k + 1)
  {
    var c := w.calls[call];
    assert PlaceAll(c.group, c.objects[..k + 1]) == PlaceAll(c.group, c.objects[..k]) + [Placed(c.group, k, c.objects[k])];
    assert w.calls[call := c.(written := k)][call := c.(written := k + 1)] == w.calls[call := c.(written := k + 1)];
  }

  lemma {:induction false} GrowNone(w: Writer, call: nat)
    requires call < |w.calls| && w.calls[call].written == 0
    ensures Grown(w, call, 0) == w
  {
    assert w.calls[call := w.calls[call].(written := 0)] == w.calls;
    assert w.calls[call].objects[..0] == [];
  }

  lemma {:induction false} RunSteps(evs: seq<WriteEvent>, w: Writer, call: nat, k: nat)
    requires RunWriter(evs) == w && call < |w.calls| && !w.calls[call].failed && w.calls[call].written == 0
    requires k <= |w.calls[call].objects|
    ensures RunWriter(evs + Steps(call, k)) == Grown(w, call, k)
    decreases k
  {
    if k == 0 {
      GrowNone(w, call);
      assert evs + Steps(call, 0) == evs;
    } else {
      RunSteps(evs, w, call, k - 1);
      GrowStep(w, call, k - 1);
      assert evs + Steps(call, k) == evs + Steps(call, k - 1) + [WriteObject(call, true)];
      RunSnoc(evs + Steps(call, k - 1), WriteObject(call, true));
    }
  }

  // The writer after an allocation.
  function Allocated(w: Writer, objects: seq<Payload>, openOk: bool): Writer {
    w.(nextGroup := (w.nextGroup + 1) % GROUP_IDS, calls := w.calls + [Call(w.nextGroup, objects, 0, !openOk)])
  }

  lemma {:induction false} RunCall(evs: seq<WriteEvent>, w: Writer, objects: seq<Payload>, a: Answers)
    requires RunWriter(evs) == w
    ensures var x := RunWriter(evs + EventsOf(|w.calls|, objects, a));
      && x.nextGroup == (w.nextGroup + 1) % GROUP_IDS && |x.calls| == |w.calls| + 1
      && x.log == w.log + PlaceAll(w.nextGroup, objects[..PlacedOf(a, |objects|)])
  {
    var start := evs + [Allocate(objects, a.open.None?)];
    RunSnoc(evs, Allocate(objects, a.open.None?));
    assert RunWriter(start) == Allocated(w, objects, a.open.None?);
    if a.open.None? {
      RunOpened(start, Allocated(w, objects, true), w, objects, PlacedOf(a, |objects|));
      EventsSplit(evs, |w.calls|, objects, a);
    } else {
      assert evs + EventsOf(|w.calls|, objects, a) == start;
      assert PlaceAll(w.nextGroup, objects[..0]) == [];
    }
  }

  lemma {:induction false} EventsSplit(evs: seq<WriteEvent>, call: nat, objects: seq<Payload>, a: Answers)
    requires a.open.None?
    ensures var k, start := PlacedOf(a, |objects|), evs + [Allocate(objects, true)];
      evs + EventsOf(call, objects, a) ==
        if k < |objects| then start + Steps(call, k) + [WriteObject(call, false)] else start + Steps(call, k)
  {
  }

  lemma {:induction false} RunOpened(evs: seq<WriteEvent>, v: Writer, w: Writer, objects: seq<Payload>, k: nat)
    requires RunWriter(evs) == v == Allocated(w, objects, true) && k <= |objects|
    ensures var x, y := RunWriter(evs + Steps(|w.calls|, k)), RunWriter(evs + Steps(|w.calls|, k) + [WriteObject(|w.calls|, false)]);
      && x.nextGroup == y.nextGroup == v.nextGroup && |x.calls| == |y.calls| == |w.calls| + 1
      && x.log == y.log == w.log + PlaceAll(w.nextGroup, objects[..k])
  {
    RunSteps(evs, v, |w.calls|, k);
    RunSnoc(evs + Steps(|w.calls|, k), WriteObject(|w.calls|, false));
  }

  lemma {:induction false} ArrivesOrNothing(p: Pen, act: Act)
    requires act.Send?
    ensures Do(p, act) ==
      if Arrives(p, act) then
        p.(next := (p.next + 1) % GROUP_IDS, log := p.log + PlaceAll(p.next, act.objects[..PlacedOf(act.answers, |act.objects|)]))
      else p
  {
  }

  predicate Agree(w: Writer, p: Pen, calls: nat) {
    w.nextGroup == p.next && w.log == p.log && |w.calls| == calls
  }

  lemma {:induction false} RefinesCall(evs: seq<WriteEvent>, p: Pen, act: Act, calls: nat)
    requires Agree(RunWriter(evs), p, calls) && Arrives(p, act)
    ensures Agree(RunWriter(evs + EventsOf(calls, act.objects, act.answers)), Do(p, act), calls + 1)
  {
    RunCall(evs, RunWriter(evs), act.objects, act.answers);
    ArrivesOrNothing(p, act);
  }

  lemma {:induction false} RefinesOther(w: Writer, p: Pen, act: Act, calls: nat)
    requires Agree(w, p, calls) && !Arrives(p, act)
    ensures Agree(w, Do(p, act), calls)
  {
    if act.Send? {
      ArrivesOrNothing(p, act);
    }
  }

  /** The writer refines the interleaved model: same next group, same log, and one of its calls for
      each that reached a publisher. */
  lemma {:induction false} WriterRefines(acts: seq<Act>)
    ensures Agree(RunWriter(Trace(acts)), After(acts), Arrived(acts))
  {
    if acts != [] {
      var before, act := acts[..|acts| - 1], acts[|acts| - 1];
      WriterRefines(before);
      if Arrives(After(before), act) {
        RefinesCall(Trace(before), After(before), act, Arrived(before));
      } else {
        RefinesOther(RunWriter(Trace(before)), After(before), act, Arrived(before));
        assert Trace(acts) == Trace(before);
      }
    }
  }

  lemma {:induction false} NextIsArrived(acts: seq<Act>)
    ensures After(acts).next == Arrived(acts) % GROUP_IDS
  {
    WriterRefines(acts);
    WriterRuns(Trace(acts));
  }

  /** Over any sequence of writes, failing or not, of which at most 2^64 reach a publisher, one writer
      never places two objects under the same group and object ID. */
  lemma {:induction false} WriterPairsUnique(acts: seq<Act>, i: nat, j: nat)
    requires Arrived(acts) <= GROUP_IDS && i < j < |After(acts).log|
    ensures After(acts).log[i].group != After(acts).log[j].group || After(acts).log[i].obj != After(acts).log[j].obj
  {
    WriterRefines(acts);
    PairsUnique(Trace(acts), i, j);
  }

  /** The k-th call that reaches a publisher takes group k, failing or not, and adds its objects before
      the first failure, numbered from 0; a call that reaches none changes nothing. */
  lemma {:induction false} CallOwnsGroup(acts: seq<Act>, objects: seq<Payload>, a: Answers) returns (placed: nat)
    ensures Written(a, |objects|, placed)
    ensures var p, q := After(acts), After(acts + [Send(objects, a)]);
      if Arrives(p, Send(objects, a)) then
        && p.next == Arrived(acts) % GROUP_IDS && q.next == (Arrived(acts) + 1) % GROUP_IDS
        && |q.log| == |p.log| + placed && q.log[..|p.log|] == p.log
        && forall i :: 0 <= i < placed ==> q.log[|p.log| + i] == Placed(Arrived(acts) % GROUP_IDS, i, objects[i])
      else q == p
  {
    placed := PlacedOf(a, |objects|);
    PlacedIsWritten(a, |objects|);
    assert (acts + [Send(objects, a)])[..|acts|] == acts;
    NextIsArrived(acts);
    NextModulo(Arrived(acts));
    ArrivesOrNothing(After(acts), Send(objects, a));
  }

  /** What one call returns: nil exactly when the writer reaches its publisher and the group opens, every
      object is written and the group closes; otherwise the first error met. */
  lemma {:induction false} CallAnswers(acts: seq<Act>, objects: seq<Payload>, a: Answers)
    ensures var p, n := After(acts), |objects|;
      var r := CallResult(p, a, n);
      && (r.None? <==> Arrives(p, Send(objects, a)) && a.open.None? && (forall k :: 0 <= k < n ==> a.write(k).None?) && a.close.None?)
      && (p.closed ==> r == Some(ConnectionClosed))
      && (!p.closed && (a.ctxFirst || p.slot.readyCloses == 0) ==> r == Some(ContextDone))
      && (!p.closed && !a.ctxFirst && p.slot.readyCloses > 0 && p.slot.cleared ==> r == Some(ConnectionClosed))
      && (Arrives(p, Send(objects, a)) ==>
            && (a.open.Some? ==> r == a.open)
            && (a.open.None? ==> forall k :: 0 <= k < n && a.write(k).Some? && (forall j :: 0 <= j < k ==> a.write(j).None?) ==> r == a.write(k))
            && (a.open.None? && (forall k :: 0 <= k < n ==> a.write(k).None?) ==> r == a.close))
  {
  }
}
