/** The publisher latch and the track writer as objects. */
module Tracks {
  import opened Common
  import opened TrackSpec

  class PublisherSlot {
    var pub: Option<nat>
    var readyCloses: nat      // how often `ready` has been closed
    var cleared: bool

    ghost function View(): Slot
      reads this
    {
      Slot(pub, readyCloses, cleared)
    }

    ghost predicate Valid()
      reads this
    {
      readyCloses == 0 || (readyCloses == 1 && (pub.Some? || cleared))
    }

    constructor ()
      ensures Valid() && View() == EMPTY_SLOT
    {
      pub, readyCloses, cleared := None, 0, false;
    }

    // Closing a closed channel would panic.
    method CloseReady()
      requires readyCloses == 0
      modifies this`readyCloses
      ensures readyCloses == 1
    {
      readyCloses := readyCloses + 1;
    }

    method Set(p: nat)
      requires Valid()
      modifies this
      ensures Valid() && View() == StepSlot(old(View()), SetPub(p))
    {
      if pub.Some? || cleared {
        return;
      }
      pub := Some(p);
      CloseReady();
    }

    method Get(ctxFirst: bool) returns (r: GetAnswer)
      requires Valid()
      ensures r == GetSlot(View(), ctxFirst)
    {
      if ctxFirst || readyCloses == 0 {
        return GetFailed(ContextDone);
      }
      if cleared {
        return GetFailed(ConnectionClosed);
      }
      r := GotPub(pub.value);
    }

    method Clear()
      requires Valid()
      modifies this
      ensures Valid() && View() == StepSlot(old(View()), SlotEvent.Clear)
    {
      cleared := true;
      pub := None;
    }
  }

  // What the library answers during one write: the context, OpenSubgroup, WriteObject and Close.
  datatype Answers = Answers(ctxFirst: bool, open: Option<Error>, write: nat -> Option<Error>, close: Option<Error>)

  function FirstFailure(f: nat -> Option<Error>, i: nat, n: nat): (k: nat)
    requires i <= n
    ensures i <= k <= n
    ensures forall j :: i <= j < k ==> f(j).None?
    ensures k < n ==> f(k).Some?
    decreases n - i
  {
    if i == n || f(i).Some? then i else FirstFailure(f, i + 1, n)
  }

  // How many of n objects a write that reached its publisher places.
  function PlacedOf(a: Answers, n: nat): (k: nat)
    ensures k <= n
  {
    if a.open.Some? then 0 else FirstFailure(a.write, 0, n)
  }

  function WriteResult(a: Answers, n: nat): Option<Error> {
    if a.open.Some? then a.open
    else
      var k := FirstFailure(a.write, 0, n);
      if k < n then a.write(k) else a.close
  }

  // A writer as a value: its flag, its slot, the next group ID and what it has placed so far.
  datatype Pen = Pen(closed: bool, slot: Slot, next: nat, log: seq<Placed>)

  predicate Reaches(p: Pen, a: Answers) {
    !p.closed && GetSlot(p.slot, a.ctxFirst).GotPub?
  }

  // What one write of n objects returns.
  function CallResult(p: Pen, a: Answers, n: nat): Option<Error> {
    if p.closed then Some(ConnectionClosed)
    else match GetSlot(p.slot, a.ctxFirst)
      case GetFailed(err) => Some(err)
      case GotPub(_) => WriteResult(a, n)
  }

  // A write that reaches a publisher takes one group and places the objects before the first failure.
  function AfterCall(p: Pen, objects: seq<Payload>, a: Answers): Pen {
    if !Reaches(p, a) then p
    else p.(next := (p.next + 1) % GROUP_IDS, log := p.log + PlaceAll(p.next, objects[..PlacedOf(a, |objects|)]))
  }

  /** A write that returns nil has taken one group and placed every object in it. */
  lemma NilMeansWritten(p: Pen, objects: seq<Payload>, a: Answers)
    ensures CallResult(p, a, |objects|).None? ==>
      AfterCall(p, objects, a) == p.(next := (p.next + 1) % GROUP_IDS, log := p.log + PlaceAll(p.next, objects))
  {
    if CallResult(p, a, |objects|).None? {
      assert objects[..|objects|] == objects;
    }
  }

  // The writer after n attempts, numbered from 1, at writing the same data.
  function Attempted(p: Pen, data: Payload, answers: nat -> Answers, n: nat): Pen {
    if n == 0 then p else AfterCall(Attempted(p, data, answers, n - 1), [data], answers(n))
  }

  // An attempt that gets as far as placing its object, whatever it returns then.
  predicate Places(p: Pen, a: Answers) {
    Reaches(p, a) && PlacedOf(a, 1) == 1
  }

  function Copies(p: Pen, answers: nat -> Answers, n: nat): nat {
    if n == 0 then 0 else Copies(p, answers, n - 1) + if Places(p, answers(n)) then 1 else 0
  }

  lemma {:induction false} SameWriter(p: Pen, data: Payload, answers: nat -> Answers, n: nat)
    ensures Attempted(p, data, answers, n).closed == p.closed && Attempted(p, data, answers, n).slot == p.slot
  {
    if n > 0 {
      SameWriter(p, data, answers, n - 1);
    }
  }

  /** Attempts only add to the log, and what they add is copies of the data as first objects. */
  lemma {:induction false} AttemptsAdd(p: Pen, data: Payload, answers: nat -> Answers, n: nat)
    ensures var q := Attempted(p, data, answers, n);
      && q.closed == p.closed && q.slot == p.slot && |q.log| == |p.log| + Copies(p, answers, n)
      && q.log[..|p.log|] == p.log
      && forall i :: |p.log| <= i < |q.log| ==> q.log[i].obj == 0 && q.log[i].payload == data
  {
    if n > 0 {
      AttemptsAdd(p, data, answers, n - 1);
      var before := Attempted(p, data, answers, n - 1);
      assert [data][..0] == [] && [data][..1] == [data];
      assert AfterCall(before, [data], answers(n)).log[..|before.log|] == before.log;
    }
  }

  lemma {:induction false} CopiesZero(p: Pen, answers: nat -> Answers, n: nat)
    ensures Copies(p, answers, n) == 0 <==> forall k: nat :: 1 <= k <= n ==> !Places(p, answers(k))
  {
    if n > 0 {
      CopiesZero(p, answers, n - 1);
    }
  }

  /** When the last of n attempts returns nil, the data has been placed at least once, and exactly once
      if and only if no earlier attempt got as far as placing it before it failed. */
  lemma DeliveredOnceIff(p: Pen, data: Payload, answers: nat -> Answers, n: nat)
    requires n >= 1 && CallResult(p, answers(n), 1).None?
    ensures Copies(p, answers, n) >= 1
    ensures Copies(p, answers, n) == 1 <==> forall k: nat :: 1 <= k < n ==> !Places(p, answers(k))
    ensures |Attempted(p, data, answers, n).log| == |p.log| + Copies(p, answers, n)
  {
    AttemptsAdd(p, data, answers, n);
    CopiesZero(p, answers, n - 1);
    assert Places(p, answers(n));
  }

  class TrackWriter {
    const slot: PublisherSlot
    var nextGroup: nat
    var closed: bool
    ghost var log: seq<Placed>       // every object handed to WriteObject successfully

    ghost predicate Valid()
      reads this, slot
    {
      slot.Valid() && nextGroup < GROUP_IDS
    }

    ghost function View(): Pen
      reads this, slot
    {
      Pen(closed, slot.View(), nextGroup, log)
    }

    constructor (slot: PublisherSlot)
      requires slot.Valid()
      ensures Valid() && this.slot == slot && View() == Pen(false, slot.View(), 0, [])
    {
      this.slot, nextGroup, closed, log := slot, 0, false, [];
    }

    method Write(data: Payload, a: Answers) returns (r: Option<Error>)
      requires Valid()
      modifies this`nextGroup, this`log
      ensures Valid()
      ensures View() == AfterCall(old(View()), [data], a) && r == CallResult(old(View()), a, 1)
    {
      if closed {
        return Some(ConnectionClosed);
      }
      var got := slot.Get(a.ctxFirst);
      if got.GetFailed? {
        return Some(got.err);
      }
      var groupID := nextGroup;
      nextGroup := (nextGroup + 1) % GROUP_IDS;
      if a.open.Some? {
        return a.open;
      }
      if a.write(0).Some? {
        return a.write(0);
      }
      log := log + [Placed(groupID, 0, data)];
      assert FirstFailure(a.write, 0, 1) == 1;
      r := a.close;
    }

    method WriteStream(objects: seq<Payload>, a: Answers) returns (r: Option<Error>)
      requires Valid()
      modifies this`nextGroup, this`log
      ensures Valid()
      ensures View() == AfterCall(old(View()), objects, a) && r == CallResult(old(View()), a, |objects|)
    {
      if closed {
        return Some(ConnectionClosed);
      }
      var got := slot.Get(a.ctxFirst);
      if got.GetFailed? {
        return Some(got.err);
      }
      var groupID := nextGroup;
      nextGroup := (nextGroup + 1) % GROUP_IDS;
      if a.open.Some? {
        return a.open;
      }
      r := WriteObjects(groupID, objects, a);
    }

    // The loop of WriteStream over the objects, once the group is open.
    method WriteObjects(groupID: nat, objects: seq<Payload>, a: Answers) returns (r: Option<Error>)
      requires Valid() && a.open.None?
      modifies this`log
      ensures Valid()
      ensures log == old(log) + PlaceAll(groupID, objects[..PlacedOf(a, |objects|)])
      ensures r == WriteResult(a, |objects|)
    {
      var i := 0;
      while i < |objects|
        invariant i <= |objects| && Valid()
        invariant log == old(log) + PlaceAll(groupID, objects[..i])
        invariant FirstFailure(a.write, 0, |objects|) == FirstFailure(a.write, i, |objects|)
      {
        if a.write(i).Some? {
          return a.write(i);
        }
        log := log + [Placed(groupID, i, objects[i])];
        i := i + 1;
      }
      r := a.close;
    }

    /** Closing clears the slot, so that no later write reaches a publisher. */
    method Close()
      requires Valid()
      modifies this`closed, slot
      ensures Valid() && closed && slot.View() == StepSlot(old(slot.View()), SlotEvent.Clear)
      ensures View() == old(View()).(closed := true, slot := slot.View())
      ensures forall a :: !Reaches(View(), a)
      ensures forall a, n :: CallResult(View(), a, n) == Some(ConnectionClosed)
    {
      closed := true;
      slot.Clear();
    }
  }
}
