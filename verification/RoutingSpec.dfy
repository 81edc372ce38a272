/** Namespaces, the subscribe router and the paths that discovery advertises. */
module RoutingSpec {
  import opened Common

  const CONTROL_NS0 := "mcp"
  const CONTROL_NS2 := "control"
  const CLIENT_TO_SERVER := "client-to-server"
  const SERVER_TO_CLIENT := "server-to-client"

  const RESOURCES := 0
  const TOOLS := 1
  const NOTIFICATIONS := 2

  function TypeName(trackType: int): string {
    if trackType == RESOURCES then "resources"
    else if trackType == TOOLS then "tools"
    else if trackType == NOTIFICATIONS then "notifications"
    else "unknown"
  }

  function ControlNamespace(sessionID: string): seq<string> { [CONTROL_NS0, sessionID, CONTROL_NS2] }

  function DataTrackNamespace(sessionID: string, trackType: int): seq<string> {
    [CONTROL_NS0, sessionID, TypeName(trackType)]
  }

  predicate KnownType(trackType: int) { 0 <= trackType <= 2 }

  lemma TypeNames()
    ensures forall t, u :: KnownType(t) && KnownType(u) && TypeName(t) == TypeName(u) ==> t == u
    ensures forall t :: TypeName(t) != CONTROL_NS2 && '/' !in TypeName(t)
  {
    assert |"resources"| == 9 && |"tools"| == 5 && |"notifications"| == 13 && |"control"| == 7 && |"unknown"| == 7;
    assert "unknown"[0] == 'u' && "control"[0] == 'c';
  }

  /** The namespaces and paths in full. */
  lemma NamespacesAre(s: string)
    ensures DefaultNamespaces(s) == [["mcp", s, "resources"], ["mcp", s, "tools"], ["mcp", s, "notifications"]]
    ensures ControlNamespace(s) == ["mcp", s, "control"]
    ensures DataPath(s, RESOURCES) == "mcp/" + s + "/resources" && DataPath(s, TOOLS) == "mcp/" + s + "/tools"
    ensures DataPath(s, NOTIFICATIONS) == "mcp/" + s + "/notifications"
    ensures ControlPath(s, CLIENT_TO_SERVER) == "mcp/" + s + "/control/client-to-server"
    ensures ControlPath(s, SERVER_TO_CLIENT) == "mcp/" + s + "/control/server-to-client"
    ensures forall t :: !(0 <= t <= 2) ==> DataTrackNamespace(s, t) == ["mcp", s, "unknown"]
  {
    SplitTail("mcp/" + s, "/control/", "client-to-server");
    SplitTail("mcp/" + s, "/control/", "server-to-client");
    assert "/control/" + "client-to-server" == "/control/client-to-server";
    assert "/control/" + "server-to-client" == "/control/server-to-client";
    SplitTail("mcp/" + s, "/", "resources");
    SplitTail("mcp/" + s, "/", "tools");
    SplitTail("mcp/" + s, "/", "notifications");
    assert "/" + "resources" == "/resources" && "/" + "tools" == "/tools" && "/" + "notifications" == "/notifications";
  }

  lemma SplitTail(a: string, b: string, c: string)
    ensures a + b + c == a + (b + c)
  {
  }

  /** Data namespaces are injective in the session and the known type, and none is a control one. */
  lemma NamespacesApart(s: string, t: int, s': string, t': int)
    requires KnownType(t) && KnownType(t')
    ensures DataTrackNamespace(s, t) == DataTrackNamespace(s', t') <==> s == s' && t == t'
    ensures DataTrackNamespace(s, t) != ControlNamespace(s')
  {
    TypeNames();
    assert DataTrackNamespace(s, t)[1] == s && DataTrackNamespace(s, t)[2] == TypeName(t);
    assert DataTrackNamespace(s', t')[1] == s' && DataTrackNamespace(s', t')[2] == TypeName(t');
    assert ControlNamespace(s')[2] == CONTROL_NS2;
  }

  // ---- the control handler ----

  datatype Handler = Handler(sessionID: string, sendTrack: string, slot: Option<nat>)

  predicate ControlShape(ns: seq<string>) {
    |ns| == 3 && ns[0] == CONTROL_NS0 && ns[2] == CONTROL_NS2
  }

  // An empty session ID accepts any, and learns it.
  predicate Accepts(h: Handler, ns: seq<string>, track: string) {
    ControlShape(ns) && (h.sessionID != "" ==> ns[1] == h.sessionID) && track == h.sendTrack
  }

  function AfterAccept(h: Handler, ns: seq<string>, rw: nat): Handler
    requires ControlShape(ns)
  {
    h.(sessionID := if h.sessionID == "" then ns[1] else h.sessionID,
       slot := if h.slot.Some? then h.slot else Some(rw))
  }

  // ---- the router ----

  datatype Destination = ToControl | ToData(i: nat) | Nowhere

  /** The handler a subscribe reaches: control by shape, otherwise the first data handler with the
      same namespace. */
  ghost predicate Reaches(ns: seq<string>, data: seq<seq<string>>, d: Destination) {
    match d
    case ToControl => ControlShape(ns)
    case ToData(i) => !ControlShape(ns) && i < |data| && data[i] == ns && forall j :: 0 <= j < i ==> data[j] != ns
    case Nowhere => !ControlShape(ns) && ns !in data
  }

  function DefaultNamespaces(sessionID: string): seq<seq<string>> {
    [DataTrackNamespace(sessionID, RESOURCES), DataTrackNamespace(sessionID, TOOLS), DataTrackNamespace(sessionID, NOTIFICATIONS)]
  }

  /** With the three default handlers a subscribe fits at most one of the four handlers. */
  lemma AtMostOneFits(sessionID: string, ns: seq<string>, i: nat, j: nat)
    requires i < 3 && j < 3
    ensures DefaultNamespaces(sessionID)[i] == ns && DefaultNamespaces(sessionID)[j] == ns ==> i == j
    ensures DefaultNamespaces(sessionID)[i] == ns ==> !ControlShape(ns)
  {
    NamespacesApart(sessionID, i, sessionID, j);
    TypeNames();
    assert DefaultNamespaces(sessionID)[i] == DataTrackNamespace(sessionID, i);
    assert DefaultNamespaces(sessionID)[j] == DataTrackNamespace(sessionID, j);
    assert DataTrackNamespace(sessionID, i)[2] == TypeName(i);
  }

  /** An open server of a session accepts exactly its own control track and any track of its own data
      namespaces. */
  lemma ServerAcceptsIff(sessionID: string, ns: seq<string>, track: string, slot: Option<nat>, d: Destination)
    requires sessionID != "" && Reaches(ns, DefaultNamespaces(sessionID), d)
    ensures (d.ToControl? && Accepts(Handler(sessionID, SERVER_TO_CLIENT, slot), ns, track)) || d.ToData? <==>
      (ns == ControlNamespace(sessionID) && track == SERVER_TO_CLIENT)
      || exists t :: KnownType(t) && ns == DataTrackNamespace(sessionID, t)
  {
    TypeNames();
    var data := DefaultNamespaces(sessionID);
    assert forall i :: 0 <= i < 3 ==> data[i] == DataTrackNamespace(sessionID, i) && KnownType(i);
    if ControlShape(ns) {
      assert ns == [ns[0], ns[1], ns[2]];
      forall t | KnownType(t) ensures ns != DataTrackNamespace(sessionID, t) {
        assert DataTrackNamespace(sessionID, t)[2] == TypeName(t);
      }
    } else if t :| KnownType(t) && ns == DataTrackNamespace(sessionID, t) {
      assert data[t] in data;
    }
  }

  // ---- the advertised paths ----

  function Push(c: char, rest: seq<string>): (r: seq<string>)
    requires rest != []
    ensures r != []
  {
    if c == '/' then [""] + rest else [[c] + rest[0]] + rest[1..]
  }

  function Split(s: string): (r: seq<string>)
    ensures r != []
  {
    if s == "" then [""] else Push(s[0], Split(s[1..]))
  }

  function Slashes(s: string): nat {
    if s == "" then 0 else (if s[0] == '/' then 1 else 0) + Slashes(s[1..])
  }

  lemma {:induction false} SplitSize(s: string)
    ensures |Split(s)| == Slashes(s) + 1
    ensures Slashes(s) == 0 <==> '/' !in s
    ensures '/' !in s ==> Split(s) == [s]
  {
    if s != "" {
      SplitSize(s[1..]);
      assert s == [s[0]] + s[1..];
    }
  }

  lemma PushOnto(c: char, l: seq<string>, r: seq<string>)
    requires l != []
    ensures Push(c, l + r) == Push(c, l) + r
  {
    assert (l + r)[0] == l[0] && (l + r)[1..] == l[1..] + r;
  }

  lemma {:induction false} SplitJoin(a: string, b: string)
    ensures Split(a + "/" + b) == Split(a) + Split(b)
  {
    var s := a + "/" + b;
    if a == "" {
      assert s[0] == '/' && s[1..] == b;
    } else {
      SplitJoin(a[1..], b);
      assert s[0] == a[0] && s[1..] == a[1..] + "/" + b;
      PushOnto(a[0], Split(a[1..]), Split(b));
    }
  }

  function DataPath(sessionID: string, trackType: int): string {
    "mcp/" + sessionID + "/" + TypeName(trackType)
  }

  function ControlPath(sessionID: string, track: string): string {
    "mcp/" + sessionID + "/control/" + track
  }

  lemma SplitThree(sessionID: string, leaf: string)
    ensures Split("mcp/" + sessionID + "/" + leaf) == ["mcp"] + Split(sessionID) + Split(leaf)
  {
    SplitSize("mcp");
    assert "mcp/" + sessionID + "/" + leaf == "mcp" + "/" + (sessionID + "/" + leaf);
    SplitJoin("mcp", sessionID + "/" + leaf);
    SplitJoin(sessionID, leaf);
    assert ["mcp"] + (Split(sessionID) + Split(leaf)) == ["mcp"] + Split(sessionID) + Split(leaf);
  }

  /** The advertised path of a data namespace splits back to the namespace exactly when the session
      ID has no slash in it. */
  lemma DataPathSplitsIff(sessionID: string, trackType: int)
    ensures Split(DataPath(sessionID, trackType)) == DataTrackNamespace(sessionID, trackType) <==> '/' !in sessionID
  {
    TypeNames();
    SplitThree(sessionID, TypeName(trackType));
    SplitSize(TypeName(trackType));
    SplitSize(sessionID);
    assert |DataTrackNamespace(sessionID, trackType)| == 3;
  }

  lemma ControlTracksArePlain()
    ensures '/' !in CLIENT_TO_SERVER && '/' !in SERVER_TO_CLIENT && '/' !in CONTROL_NS2
  {
  }

  /** The same for the two control paths, which end in the track name. */
  lemma ControlPathSplitsIff(sessionID: string, track: string)
    requires track == CLIENT_TO_SERVER || track == SERVER_TO_CLIENT
    ensures Split(ControlPath(sessionID, track)) == ControlNamespace(sessionID) + [track] <==> '/' !in sessionID
  {
    var leaf := "control" + "/" + track;
    assert ControlPath(sessionID, track) == "mcp/" + sessionID + "/" + leaf;
    SplitThree(sessionID, leaf);
    ControlLeaf(track);
    ThreeAndTrack(Split(sessionID), track, sessionID);
    SplitSize(sessionID);
  }

  lemma ControlLeaf(track: string)
    requires track == CLIENT_TO_SERVER || track == SERVER_TO_CLIENT
    ensures Split("control" + "/" + track) == ["control", track]
  {
    ControlTracksArePlain();
    SplitJoin("control", track);
    SplitSize("control");
    SplitSize(track);
  }

  lemma ThreeAndTrack(parts: seq<string>, track: string, sessionID: string)
    requires parts != []
    ensures ["mcp"] + parts + ["control", track] == ControlNamespace(sessionID) + [track] <==> parts == [sessionID]
  {
    var all := ["mcp"] + parts + ["control", track];
    if |parts| == 1 {
      assert all[1] == parts[0];
    } else {
      assert |all| != 4;
    }
  }
}
