/** The publisher latch and the group and object IDs of a track, over every interleaving. */
module TrackSpec {
  import opened Common

  // ---- the latch ----

  datatype Slot = Slot(pub: Option<nat>, readyCloses: nat, cleared: bool)

  datatype SlotEvent = SetPub(pub: nat) | Clear

  const EMPTY_SLOT := Slot(None, 0, false)

  function StepSlot(s: Slot, ev: SlotEvent): Slot {
    match ev
    case SetPub(pub) => if s.pub.Some? || s.cleared then s else s.(pub := Some(pub), readyCloses := s.readyCloses + 1)
    case Clear => s.(cleared := true, pub := None)
  }

  function RunSlot(evs: seq<SlotEvent>): Slot {
    if evs == [] then EMPTY_SLOT else StepSlot(RunSlot(evs[..|evs| - 1]), evs[|evs| - 1])
  }

  datatype GetAnswer = GotPub(pub: nat) | GetFailed(err: Error)

  // `ctxFirst` says that select takes the cancelled context. A Get on a latch that is not ready can
  // only return through its context.
  function GetSlot(s: Slot, ctxFirst: bool): GetAnswer {
    if ctxFirst || s.readyCloses == 0 then GetFailed(ContextDone)
    else if s.cleared || s.pub.None? then GetFailed(ConnectionClosed)
    else GotPub(s.pub.value)
  }

  /** The publisher that was set first, unless Clear came before any was. */
  function FirstSet(evs: seq<SlotEvent>): Option<nat> {
    if evs == [] then None
    else match evs[0]
      case SetPub(pub) => Some(pub)
      case Clear => None
  }

  predicate Cleared(evs: seq<SlotEvent>) {
    exists i :: 0 <= i < |evs| && evs[i].Clear?
  }

  /** The latch over every run: `ready` is closed at most once, and what it holds is the first
      publisher until it is cleared. */
  lemma {:induction false} LatchIs(evs: seq<SlotEvent>)
    ensures RunSlot(evs) == Slot(if Cleared(evs) then None else FirstSet(evs),
                                 if FirstSet(evs).Some? then 1 else 0, Cleared(evs))
  {
    if evs != [] {
      var n := |evs| - 1;
      LatchIs(evs[..n]);
      if Cleared(evs[..n]) {
        var i :| 0 <= i < n && evs[..n][i].Clear?;
        assert evs[i].Clear?;
      }
      if evs[n].SetPub? && Cleared(evs) {
        var i :| 0 <= i < |evs| && evs[i].Clear?;
        assert evs[..n][i].Clear?;
      }
      if n > 0 {
        assert FirstSet(evs) == FirstSet(evs[..n]);
        if FirstSet(evs).None? {
          assert evs[..n][0].Clear?;
        }
      }
    }
  }

  /** Every successful Get of a run returns the one publisher ever set; after Clear none succeeds;
      and a slot cleared before it was set keeps its waiters until their context ends. */
  lemma GetIsStable(evs: seq<SlotEvent>, n: nat, ctxFirst: bool)
    requires n <= |evs|
    ensures GetSlot(RunSlot(evs[..n]), ctxFirst).GotPub? ==>
      Some(GetSlot(RunSlot(evs[..n]), ctxFirst).pub) == FirstSet(evs) && !Cleared(evs[..n])
    ensures GetSlot(RunSlot(evs[..n]), ctxFirst).GotPub? <==> !ctxFirst && n > 0 && FirstSet(evs).Some? && !Cleared(evs[..n])
    ensures Cleared(evs[..n]) && !ctxFirst ==>
      GetSlot(RunSlot(evs[..n]), ctxFirst) == GetFailed(if FirstSet(evs).Some? then ConnectionClosed else ContextDone)
  {
    LatchIs(evs[..n]);
    if n > 0 {
      assert evs[..n][0] == evs[0];
    }
    if Cleared(evs[..n]) {
      var i :| 0 <= i < n && evs[..n][i].Clear?;
    }
  }

  // ---- IDs ----

  const GROUP_IDS: nat := 0x1_0000_0000_0000_0000   // group IDs are 64-bit and wrap around

  type Payload = seq<int>

  datatype Placed = Placed(group: nat, obj: nat, payload: Payload)

  // One Write or WriteStream call that has allocated its group.
  datatype Call = Call(group: nat, objects: seq<Payload>, written: nat, failed: bool)

  datatype Writer = Writer(nextGroup: nat, calls: seq<Call>, log: seq<Placed>)

  datatype WriteEvent =
    | Allocate(objects: seq<Payload>, openOk: bool)   // take a group ID and try to open the subgroup
    | WriteObject(call: nat, ok: bool)                // the next object of one call

  function StepWriter(w: Writer, ev: WriteEvent): Writer {
    match ev
    case Allocate(objects, openOk) =>
      w.(nextGroup := (w.nextGroup + 1) % GROUP_IDS, calls := w.calls + [Call(w.nextGroup, objects, 0, !openOk)])
    case WriteObject(c, ok) =>
      if c < |w.calls| && !w.calls[c].failed && w.calls[c].written < |w.calls[c].objects| then
        var call := w.calls[c];
        if ok then
          w.(calls := w.calls[c := call.(written := call.written + 1)],
             log := w.log + [Placed(call.group, call.written, call.objects[call.written])])
        else w.(calls := w.calls[c := call.(failed := true)])
      else w
  }

  function RunWriter(evs: seq<WriteEvent>): Writer {
    if evs == [] then Writer(0, [], []) else StepWriter(RunWriter(evs[..|evs| - 1]), evs[|evs| - 1])
  }

  ghost predicate WriterInv(w: Writer) {
    && w.nextGroup == |w.calls| % GROUP_IDS
    && (forall c :: 0 <= c < |w.calls| ==> w.calls[c].group == c % GROUP_IDS && w.calls[c].written <= |w.calls[c].objects|)
    && (forall i :: 0 <= i < |w.log| ==> Written(w, i))
  }

  // Log entry i is an object that call c has written.
  predicate From(w: Writer, i: nat, c: nat)
    requires i < |w.log|
  {
    && c < |w.calls| && w.log[i].group == w.calls[c].group && w.log[i].obj < w.calls[c].written
    && w.calls[c].written <= |w.calls[c].objects| && w.log[i].payload == w.calls[c].objects[w.log[i].obj]
  }

  ghost predicate Written(w: Writer, i: nat)
    requires i < |w.log|
  {
    exists c :: From(w, i, c)
  }

  lemma NextModulo(n: nat)
    ensures (n % GROUP_IDS + 1) % GROUP_IDS == (n + 1) % GROUP_IDS
  {
  }

  lemma {:induction false} WriterRuns(evs: seq<WriteEvent>)
    ensures WriterInv(RunWriter(evs))
  {
    if evs != [] {
      WriterRuns(evs[..|evs| - 1]);
      var w, x := RunWriter(evs[..|evs| - 1]), RunWriter(evs);
      NextModulo(|w.calls|);
      forall i | 0 <= i < |x.log| ensures Written(x, i) {
        if i < |w.log| {
          assert Written(w, i);
          var c :| From(w, i, c);
          assert From(x, i, c);
        } else {
          assert From(x, i, evs[|evs| - 1].call);
        }
      }
    }
  }

  // ---- uniqueness ----

  predicate Before(w: Writer, g: nat, n: nat) {
    forall i :: 0 <= i < |w.log| && w.log[i].group == g ==> w.log[i].obj < n
  }

  // While the group IDs have not wrapped, an entry of a group was written by that group's call.
  lemma {:induction false} LogBelow(evs: seq<WriteEvent>, c: nat)
    requires |RunWriter(evs).calls| <= GROUP_IDS && c < |RunWriter(evs).calls|
    ensures Before(RunWriter(evs), c, RunWriter(evs).calls[c].written)
  {
    WriterRuns(evs);
    var w := RunWriter(evs);
    forall i | 0 <= i < |w.log| && w.log[i].group == c ensures w.log[i].obj < w.calls[c].written {
      assert Written(w, i);
      var d: nat :| From(w, i, d);
      assert w.calls[d].group == d % GROUP_IDS == d;
    }
  }

  /** For at most 2^64 calls, failing or not and however they interleave, no (group, object) pair
      is ever written twice. */
  lemma {:induction false} PairsUnique(evs: seq<WriteEvent>, i: nat, j: nat)
    requires |RunWriter(evs).calls| <= GROUP_IDS && i < j < |RunWriter(evs).log|
    ensures RunWriter(evs).log[i].group != RunWriter(evs).log[j].group || RunWriter(evs).log[i].obj != RunWriter(evs).log[j].obj
  {
    var n := |evs| - 1;
    var w := RunWriter(evs[..n]);
    CallsGrow(evs);
    if j < |w.log| {
      PairsUnique(evs[..n], i, j);
    } else {
      WriterRuns(evs[..n]);
      var c := evs[n].call;
      LogBelow(evs[..n], c);
      assert w.calls[c].group == c;
    }
  }

  lemma CallsGrow(evs: seq<WriteEvent>)
    requires evs != []
    ensures |RunWriter(evs[..|evs| - 1]).calls| <= |RunWriter(evs).calls|
  {
  }

  /** The objects of a group are written contiguously from 0, in the order of the call's list. */
  lemma {:induction false} ObjectsContiguous(evs: seq<WriteEvent>, c: nat)
    requires |RunWriter(evs).calls| <= GROUP_IDS && c < |RunWriter(evs).calls|
    ensures var w := RunWriter(evs);
      && w.calls[c].written <= |w.calls[c].objects|
      && OfGroup(w.log, c) == PlaceAll(c, w.calls[c].objects[..w.calls[c].written])
  {
    WriterRuns(evs);
    var n := |evs| - 1;
    var w, x := RunWriter(evs[..n]), RunWriter(evs);
    WriterRuns(evs[..n]);
    if c < |w.calls| {
      ObjectsContiguous(evs[..n], c);
      if |x.log| > |w.log| {
        assert x.log[..|x.log| - 1] == w.log;
        var d := evs[n].call;
        assert w.calls[d].group == d;
        if d == c {
          var k := w.calls[c].written;
          assert x.calls[c].objects[..k + 1] == w.calls[c].objects[..k] + [w.calls[c].objects[k]];
        }
      }
    } else {
      NoneOfGroup(w, c);
      assert x.calls[c].objects[..0] == [];
    }
  }

  lemma NoneOfGroup(w: Writer, c: nat)
    requires WriterInv(w) && |w.calls| <= c < GROUP_IDS
    ensures OfGroup(w.log, c) == []
  {
    forall i | 0 <= i < |w.log| ensures w.log[i].group != c {
      assert Written(w, i);
      var d: nat :| From(w, i, d);
    }
    NoneLeft(w.log, c);
  }

  lemma {:induction false} NoneLeft(log: seq<Placed>, g: nat)
    requires forall i :: 0 <= i < |log| ==> log[i].group != g
    ensures OfGroup(log, g) == []
  {
    if log != [] {
      NoneLeft(log[..|log| - 1], g);
    }
  }

  function OfGroup(log: seq<Placed>, g: nat): seq<Placed> {
    if log == [] then []
    else OfGroup(log[..|log| - 1], g) + (if log[|log| - 1].group == g then [log[|log| - 1]] else [])
  }

  function PlaceAll(g: nat, objects: seq<Payload>): (r: seq<Placed>)
    ensures |r| == |objects|
  {
    seq(|objects|, i requires 0 <= i < |objects| => Placed(g, i, objects[i]))
  }

  /** One writer's group IDs are 0, 1, 2, ... and repeat exactly when 2^64 calls have been made. */
  lemma GroupIDsRepeatIff(evs: seq<WriteEvent>)
    ensures var w := RunWriter(evs);
      && (forall c :: 0 <= c < |w.calls| && c < GROUP_IDS ==> w.calls[c].group == c)
      && ((forall c, d :: 0 <= c < d < |w.calls| ==> w.calls[c].group != w.calls[d].group) <==> |w.calls| <= GROUP_IDS)
  {
    WriterRuns(evs);
    var w := RunWriter(evs);
    forall c | 0 <= c < |w.calls| && c < GROUP_IDS ensures w.calls[c].group == c {
      assert w.calls[c].group == c % GROUP_IDS;
    }
    if |w.calls| > GROUP_IDS {
      assert w.calls[0].group == 0 % GROUP_IDS && w.calls[GROUP_IDS].group == GROUP_IDS % GROUP_IDS;
    }
  }
}
