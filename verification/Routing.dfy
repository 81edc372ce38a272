/** The subscribe handlers of a session as objects. */
module Routing {
  import opened TrackSpec
  import opened Tracks
  import opened RoutingSpec
  import opened DataTracks

  class SubscribeHandler {
    var sessionID: string
    const sendTrack: string
    const sendSlot: PublisherSlot

    constructor (sessionID: string, sendTrack: string, sendSlot: PublisherSlot)
      ensures this.sessionID == sessionID && this.sendTrack == sendTrack && this.sendSlot == sendSlot
    {
      this.sessionID, this.sendTrack, this.sendSlot := sessionID, sendTrack, sendSlot;
    }

    ghost function View(): Handler
      reads this, sendSlot
    {
      Handler(sessionID, sendTrack, sendSlot.pub)
    }

    /** Accepts its own track in a control namespace of its session; the first accepted subscribe
        names the session of a handler that has none, and fills the send slot. */
    method HandleSubscribe(ns: seq<string>, track: string, rw: nat, acceptErr: bool) returns (r: SubscribeAnswer)
      requires sendSlot.Valid()
      modifies this`sessionID, sendSlot
      ensures sendSlot.Valid()
      ensures r.Rejected? <==> !Accepts(old(View()), ns, track)
      ensures r.AcceptFailed? <==> Accepts(old(View()), ns, track) && acceptErr
      ensures !r.Accepted? ==> View() == old(View()) && sendSlot.View() == old(sendSlot.View())
      ensures r.Accepted? ==> sendSlot.View() == StepSlot(old(sendSlot.View()), SetPub(rw))
      ensures r.Accepted? && !old(sendSlot.cleared) ==> View() == AfterAccept(old(View()), ns, rw)
      ensures r.Accepted? ==> sessionID == (if old(sessionID) == "" then ns[1] else old(sessionID))
    {
      if |ns| != 3 || ns[0] != CONTROL_NS0 || ns[2] != CONTROL_NS2 {
        return Rejected;
      }
      if sessionID != "" && ns[1] != sessionID {
        return Rejected;
      }
      if track != sendTrack {
        return Rejected;
      }
      if acceptErr {
        return AcceptFailed;
      }
      if sessionID == "" {
        sessionID := ns[1];
      }
      sendSlot.Set(rw);
      return Accepted;
    }
  }

  class CompositeSubscribeHandler {
    const control: SubscribeHandler
    const data: seq<DataTrackHandler>

    constructor (control: SubscribeHandler, data: seq<DataTrackHandler>)
      ensures this.control == control && this.data == data
    {
      this.control, this.data := control, data;
    }

    ghost function Namespaces(): seq<seq<string>> {
      seq(|data|, i requires 0 <= i < |data| => data[i].namespace)
    }

    ghost predicate FirstFit(ns: seq<string>, i: nat) {
      !ControlShape(ns) && i < |data| && data[i].namespace == ns && forall j :: 0 <= j < i ==> data[j].namespace != ns
    }

    // The routing decision: the loop over the data handlers with its comparison of namespaces.
    method Route(ns: seq<string>) returns (d: Destination)
      ensures RoutingSpec.Reaches(ns, Namespaces(), d)
    {
      if |ns| == 3 && ns[0] == CONTROL_NS0 && ns[2] == CONTROL_NS2 {
        return ToControl;
      }
      for k := 0 to |data|
        invariant forall j :: 0 <= j < k ==> Namespaces()[j] != ns
      {
        var own := data[k].namespace;
        if |ns| == |own| {
          var matching := true;
          var i := 0;
          while i < |own| && matching
            invariant i <= |own|
            invariant matching ==> ns[..i] == own[..i]
            invariant !matching ==> ns != own
            decreases |own| - i + if matching then 1 else 0
          {
            if ns[i] != own[i] {
              matching := false;
            } else {
              i := i + 1;
            }
          }
          if matching {
            return ToData(k);
          }
        }
      }
      return Nowhere;
    }

    // Every handler has its own open writers, none of them on the send slot or shared with another.
    ghost predicate Separate()
      reads this, control, data, set i, o | 0 <= i < |data| && o in data[i].Footprint() :: o
    {
      && (forall i :: 0 <= i < |data| ==> data[i].Publishing() && control.sendSlot !in data[i].Footprint())
      && (forall i, j :: 0 <= i < |data| && 0 <= j < |data| && i != j ==>
            data[i] != data[j] && data[i].Footprint() !! data[j].Footprint())
    }

    /** Routes a subscribe to the one handler it fits and leaves every other handler, and every writer
        but the replaced one, alone. */
    method HandleSubscribe(ns: seq<string>, track: string, rw: nat, acceptErr: bool) returns (r: SubscribeAnswer)
      requires control.sendSlot.Valid() && Separate()
      modifies control`sessionID, control.sendSlot
      modifies set i | 0 <= i < |data| && data[i].namespace == ns :: data[i]
      modifies set i | 0 <= i < |data| && data[i].namespace == ns && track in data[i].publishers :: data[i].publishers[track]
      modifies set i | 0 <= i < |data| && data[i].namespace == ns && track in data[i].publishers :: data[i].publishers[track].slot
      ensures control.sendSlot.Valid() && Separate()
      ensures !(ControlShape(ns) && r.Accepted?) ==>
        control.sessionID == old(control.sessionID) && control.sendSlot.View() == old(control.sendSlot.View())
      ensures ControlShape(ns) ==> (r.Accepted? <==> !acceptErr && Accepts(old(control.View()), ns, track))
      ensures ControlShape(ns) && r.Accepted? ==>
        control.sendSlot.View() == StepSlot(old(control.sendSlot.View()), SetPub(rw))
      ensures !ControlShape(ns) ==>
        (r.Accepted? <==> !acceptErr && exists i: nat :: FirstFit(ns, i) && !data[i].closed)
      ensures forall i: nat :: FirstFit(ns, i) ==>
        SameSubscribers(data[i]) && (r.Accepted? ==> data[i].Replaced(old(data[i].publishers), track, rw))
      ensures forall i: nat :: i < |data| && (!FirstFit(ns, i) || !r.Accepted?) ==> Untouched(data[i])
    {
      if |ns| == 3 && ns[0] == CONTROL_NS0 && ns[2] == CONTROL_NS2 {
        r := ForwardToControl(ns, track, rw, acceptErr);
      } else {
        r := ForwardToData(ns, track, rw, acceptErr);
      }
    }

    method ForwardToData(ns: seq<string>, track: string, rw: nat, acceptErr: bool) returns (r: SubscribeAnswer)
      requires Separate() && !ControlShape(ns)
      modifies set i | 0 <= i < |data| && data[i].namespace == ns :: data[i]
      modifies set i | 0 <= i < |data| && data[i].namespace == ns && track in data[i].publishers :: data[i].publishers[track]
      modifies set i | 0 <= i < |data| && data[i].namespace == ns && track in data[i].publishers :: data[i].publishers[track].slot
      ensures Separate() && control.sessionID == old(control.sessionID)
      ensures r.Accepted? <==> !acceptErr && exists i: nat :: FirstFit(ns, i) && !data[i].closed
      ensures forall i: nat :: FirstFit(ns, i) ==>
        SameSubscribers(data[i]) && (r.Accepted? ==> data[i].Replaced(old(data[i].publishers), track, rw))
      ensures forall i: nat :: i < |data| && (!FirstFit(ns, i) || !r.Accepted?) ==> Untouched(data[i])
    {
      var i := FindHandler(ns);
      if i < 0 {
        return Rejected;
      }
      r := Forward(i, data[i], ns, track, rw, acceptErr);
    }

    method FindHandler(ns: seq<string>) returns (i: int)
      requires !ControlShape(ns)
      ensures i < 0 ==> forall k: nat :: !FirstFit(ns, k)
      ensures i >= 0 ==> i < |data| && data[i].namespace == ns && forall k: nat :: FirstFit(ns, k) <==> k == i
    {
      var d := Route(ns);
      Destinations(ns, d);
      i := if d.Nowhere? then -1 else d.i;
    }

    lemma Destinations(ns: seq<string>, d: Destination)
      requires RoutingSpec.Reaches(ns, Namespaces(), d)
      ensures d.ToControl? <==> ControlShape(ns)
      ensures d.ToControl? ==> forall k: nat :: !FirstFit(ns, k)
      ensures d.ToData? ==> d.i < |data| && data[d.i].namespace == ns && forall k: nat :: FirstFit(ns, k) <==> k == d.i
      ensures d.Nowhere? ==> forall k: nat :: !FirstFit(ns, k)
    {
      assert forall i :: 0 <= i < |data| ==> data[i].namespace == Namespaces()[i];
    }

    method ForwardToControl(ns: seq<string>, track: string, rw: nat, acceptErr: bool) returns (r: SubscribeAnswer)
      requires control.sendSlot.Valid() && Separate()
      modifies control`sessionID, control.sendSlot
      ensures control.sendSlot.Valid() && Separate()
      ensures r.Accepted? <==> !acceptErr && Accepts(old(control.View()), ns, track)
      ensures !r.Accepted? ==>
        control.sessionID == old(control.sessionID) && control.sendSlot.View() == old(control.sendSlot.View())
      ensures r.Accepted? ==> control.sendSlot.View() == StepSlot(old(control.sendSlot.View()), SetPub(rw))
      ensures forall i: nat :: i < |data| ==> Untouched(data[i])
    {
      r := control.HandleSubscribe(ns, track, rw, acceptErr);
    }

    method Forward(i: nat, h: DataTrackHandler, ns: seq<string>, track: string, rw: nat, acceptErr: bool)
      returns (r: SubscribeAnswer)
      requires Separate() && i < |data| && data[i] == h && h.namespace == ns
      requires forall k: nat :: FirstFit(ns, k) <==> k == i
      modifies h`publishers, h.Replaceable(track)
      ensures Separate()
      ensures r.Accepted? <==> !acceptErr && exists k: nat :: FirstFit(ns, k) && !data[k].closed
      ensures forall k: nat :: FirstFit(ns, k) ==>
        SameSubscribers(data[k]) && (r.Accepted? ==> data[k].Replaced(old(data[k].publishers), track, rw))
      ensures forall k: nat :: k < |data| && (!FirstFit(ns, k) || !r.Accepted?) ==> Untouched(data[k])
    {
      r := Deliver(i, h, ns, track, rw, acceptErr);
      StillSeparate(i);
      assert FirstFit(ns, i);
    }

    method Deliver(i: nat, h: DataTrackHandler, ns: seq<string>, track: string, rw: nat, acceptErr: bool)
      returns (r: SubscribeAnswer)
      requires Separate() && i < |data| && data[i] == h && h.namespace == ns
      modifies h`publishers, h.Replaceable(track)
      ensures h.Publishing() && fresh(h.Footprint() - old(h.Footprint()))
      ensures r.Accepted? <==> !acceptErr && !h.closed
      ensures r.Accepted? ==> h.Replaced(old(h.publishers), track, rw)
      ensures !r.Accepted? ==> Untouched(h)
      ensures forall j: nat :: j < |data| && j != i ==> Untouched(data[j])
      ensures SameSubscribers(h)
    {
      assert h.Replaceable(track) <= h.Footprint();
      r := Hand(h, ns, track, rw, acceptErr);
    }

    method Hand(h: DataTrackHandler, ns: seq<string>, track: string, rw: nat, acceptErr: bool) returns (r: SubscribeAnswer)
      requires h.Publishing() && h.namespace == ns
      modifies h`publishers, h.Replaceable(track)
      ensures h.Publishing() && forall o :: o in h.Footprint() && o !in old(h.Footprint()) ==> fresh(o)
      ensures r.Accepted? <==> !acceptErr && !h.closed
      ensures r.Accepted? ==> h.Replaced(old(h.publishers), track, rw)
      ensures !r.Accepted? ==> Untouched(h)
      ensures SameSubscribers(h)
    {
      r := h.HandleSubscribe(ns, track, rw, acceptErr);
    }

    twostate lemma StillSeparate(i: nat)
      requires old(Separate()) && i < |data| && allocated(control.sendSlot)
      requires forall j: nat :: j < |data| && j != i ==> Untouched(data[j])
      requires data[i].Publishing() && fresh(data[i].Footprint() - old(data[i].Footprint()))
      ensures Separate()
    {
      forall j: nat | j < |data| && j != i
        ensures data[j].Publishing() && data[j].Footprint() == old(data[j].Footprint())
      {
        StillPublishing(data[j]);
      }
      forall j: nat | j < |data| ensures data[j].Publishing() && control.sendSlot !in data[j].Footprint() {
      }
      forall j: nat | j < |data| && j != i ensures data[j].Footprint() !! data[i].Footprint() {
        assert data[j].Footprint() !! old(data[i].Footprint());
      }
    }
  }

  twostate lemma StillPublishing(g: DataTrackHandler)
    requires old(g.Publishing()) && Untouched(g)
    ensures g.Publishing() && g.Footprint() == old(g.Footprint())
  {
  }

  twostate predicate SameSubscribers(h: DataTrackHandler)
    reads h
  {
    h.closed == old(h.closed) && h.subscribers == old(h.subscribers) && h.subs == old(h.subs)
  }

  // The handler's fields and every writer it had are as they were.
  twostate predicate Untouched(h: DataTrackHandler)
    reads h, h.Footprint()
  {
    && SameSubscribers(h) && h.publishers == old(h.publishers)
    && forall t :: t in h.publishers ==>
         h.publishers[t] in h.Footprint() && h.publishers[t].slot in h.Footprint()
         && h.publishers[t].View() == old(h.publishers[t].View())
  }
}
