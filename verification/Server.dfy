/** The server transport's registries as an object. */
module ServerTransport {
  import opened Common
  import opened ServerSpec

  class MOQTServerTransport {
    var connections: set<nat>
    var sessionHandlers: map<string, seq<HandlerID>>
    var closed: bool
    ghost var ids: seq<string>
    ghost var connCloses: seq<nat>
    ghost var handlerCloses: map<HandlerID, nat>
    ghost var sweeping: bool
    ghost var closing: set<nat>
    ghost var orphans: set<nat>

    ghost function View(): Server
      reads this
    {
      Server(connections, sessionHandlers, ids, connCloses, handlerCloses, closed, sweeping, closing, orphans)
    }

    ghost predicate Valid()
      reads this
    {
      Inv(View())
    }

    constructor ()
      ensures Valid() && View() == EMPTY
    {
      connections, sessionHandlers, closed := {}, map[], false;
      ids, connCloses, handlerCloses, sweeping, closing, orphans := [], [], map[], false, {}, {};
    }

    // The end of setupConnection, after both session calls have succeeded; connections are numbered
    // in the order in which they are set up.
    method RegisterConnection(conn: nat, sessionID: string)
      requires Valid() && conn == |ids| && sessionID != "" && sessionID !in ids
      modifies this
      ensures Valid() && View() == Step(old(View()), Setup(sessionID))
    {
      SetupKeeps(View(), sessionID);
      connections := connections + {conn};
      sessionHandlers := sessionHandlers[sessionID := DefaultHandlers(conn)];
      ids, connCloses := ids + [sessionID], connCloses + [0];
      handlerCloses := handlerCloses + map h | h in Members(DefaultHandlers(conn)) :: 0;
      assert View() == SetUp(old(View()), sessionID);
    }

    // OnClose of a control connection, which runs at most once for each.
    method OnClose(k: nat, sessionID: string)
      requires Valid() && k < |ids| && ids[k] == sessionID && IsOpen(View(), k)
      modifies this`connections, this`sessionHandlers, this`connCloses, this`handlerCloses, this`closing
      ensures Valid() && View() == Step(old(View()), CloseConnection(k))
    {
      CloseConnKeeps(View(), k);
      connCloses := connCloses[k := 1];
      RemoveConnection(k);
      var handlers := if sessionID in sessionHandlers then sessionHandlers[sessionID] else [];
      sessionHandlers := sessionHandlers - {sessionID};
      CloseHandlers(handlers);
      closing := closing - {k};
      assert Members([]) == {};
      assert View() == CloseConn(old(View()), k);
    }

    method RemoveConnection(k: nat)
      modifies this`connections
      ensures connections == old(connections) - {k}
    {
      connections := connections - {k};
    }

    method CloseHandlers(handlers: seq<HandlerID>)
      modifies this`handlerCloses
      ensures handlerCloses == CloseAll(old(handlerCloses), Members(handlers))
    {
      for i := 0 to |handlers|
        invariant handlerCloses == CloseAll(old(handlerCloses), Members(handlers[..i]))
      {
        assert handlers[..i + 1] == handlers[..i] + [handlers[i]];
        assert Members(handlers[..i + 1]) == Members(handlers[..i]) + {handlers[i]};
        handlerCloses := CloseAll(handlerCloses, {handlers[i]});
      }
      assert handlers[..|handlers|] == handlers;
    }

    /** The first handler of a type in one session, or in any session for an empty ID. */
    method DataTrackHandlerFor(sessionID: string, trackType: int) returns (r: Option<HandlerID>)
      requires Valid()
      ensures sessionID != "" ==> r == Lookup(View(), sessionID, trackType)
      ensures sessionID == "" && r.Some? ==> exists id :: id in sessionHandlers && Lookup(View(), id, trackType) == r
      ensures sessionID == "" && r.None? ==> forall id :: id in sessionHandlers ==> Lookup(View(), id, trackType).None?
    {
      if sessionID != "" {
        if sessionID !in sessionHandlers {
          return None;
        }
        r := FindType(sessionHandlers[sessionID], trackType);
        return;
      }
      var todo := sessionHandlers.Keys;
      while todo != {}
        invariant todo <= sessionHandlers.Keys
        invariant forall id :: id in sessionHandlers && id !in todo ==> Lookup(View(), id, trackType).None?
        decreases todo
      {
        var id :| id in todo;
        r := FindType(sessionHandlers[id], trackType);
        if r.Some? {
          assert Lookup(View(), id, trackType) == r;
          return;
        }
        todo := todo - {id};
      }
      return None;
    }

    method FindType(handlers: seq<HandlerID>, trackType: int) returns (r: Option<HandlerID>)
      ensures r == FirstOfType(handlers, trackType)
    {
      for i := 0 to |handlers|
        invariant FirstOfType(handlers, trackType) == FirstOfType(handlers[i..], trackType)
      {
        assert handlers[i..][1..] == handlers[i + 1..];
        if handlers[i].trackType == trackType {
          return Some(handlers[i]);
        }
      }
      return None;
    }

    /** Closes every registered connection, then whatever handlers are left; a second call does
        nothing. Afterwards both registries are empty, and every connection ever set up and
        every handler has been closed exactly once. `idOf` gives the session of each registered connection. */
    method Close(idOf: nat -> string)
      requires Valid() && !sweeping && forall k :: k in connections ==> k < |ids| && ids[k] == idOf(k)
      modifies this
      ensures Valid() && closed && !sweeping && ids == old(ids)
      ensures old(closed) ==> View() == old(View())
      ensures !old(closed) ==> connections == {} && sessionHandlers == map[] && orphans == old(orphans)
      ensures !old(closed) ==> |connCloses| == |ids| && forall k :: 0 <= k < |ids| ==> connCloses[k] == 1
      ensures !old(closed) ==> handlerCloses.Keys == old(handlerCloses).Keys
      ensures !old(closed) ==> forall h :: h in handlerCloses ==> handlerCloses[h] == 1
    {
      if closed {
        return;
      }
      CloseRegistered(idOf);
      SweepKeeps(View());
      CloseRemaining();
      sweeping, orphans := false, orphans + connections;
      AllClosed(View());
    }

    // The loop of Close over the connections that are registered when it starts.
    method CloseRegistered(idOf: nat -> string)
      requires Valid() && !sweeping && !closed && forall k :: k in connections ==> k < |ids| && ids[k] == idOf(k)
      modifies this
      ensures Valid() && closed && sweeping && closing == {} && connections == {}
      ensures ids == old(ids) && orphans == old(orphans) && handlerCloses.Keys == old(handlerCloses).Keys
      ensures |connCloses| == |ids| && forall k :: 0 <= k < |ids| ==> connCloses[k] == 1
    {
      BeginKeeps(View());
      ghost var registered := connections;
      var todo := connections;
      closed, sweeping, closing, connections := true, true, connections, {};
      while todo != {}
        invariant Valid() && closed && sweeping && todo == closing <= registered && connections == {}
        invariant ids == old(ids) && orphans == old(orphans) && handlerCloses.Keys == old(handlerCloses).Keys
        decreases todo
      {
        var k :| k in todo;
        assert ConnOk(View(), k);
        OnClose(k, idOf(k));
        todo := todo - {k};
      }
      forall k | 0 <= k < |ids| ensures connCloses[k] == 1 {
        assert ConnOk(View(), k);
      }
    }

    method CloseRemaining()
      modifies this`sessionHandlers, this`handlerCloses
      ensures sessionHandlers == map[]
      ensures handlerCloses == CloseAll(old(handlerCloses), AllMembers(old(sessionHandlers)))
    {
      while sessionHandlers.Keys != {}
        invariant sessionHandlers.Keys <= old(sessionHandlers).Keys
        invariant forall id :: id in sessionHandlers ==> sessionHandlers[id] == old(sessionHandlers)[id]
        invariant handlerCloses == CloseAll(old(handlerCloses), AllMembers(old(sessionHandlers) - sessionHandlers.Keys))
        decreases sessionHandlers.Keys
      {
        var id :| id in sessionHandlers.Keys;
        CloseHandlers(sessionHandlers[id]);
        OneMoreSession(old(sessionHandlers), sessionHandlers.Keys, id);
        sessionHandlers := sessionHandlers - {id};
      }
      assert old(sessionHandlers) - {} == old(sessionHandlers);
    }
  }

  lemma OneMoreSession(sessions: map<string, seq<HandlerID>>, todo: set<string>, id: string)
    requires id in todo && todo <= sessions.Keys
    ensures AllMembers(sessions - (todo - {id})) == AllMembers(sessions - todo) + Members(sessions[id])
  {
    var a, b := sessions - (todo - {id}), sessions - todo;
    forall h | h in Members(sessions[id]) ensures h in AllMembers(a) {
      assert h in a[id];
    }
    forall h | h in AllMembers(b) ensures h in AllMembers(a) {
      var i :| i in b && h in b[i];
      assert h in a[i];
    }
    forall h | h in AllMembers(a) ensures h in AllMembers(b) + Members(sessions[id]) {
      var i :| i in a && h in a[i];
      if i != id {
        assert h in b[i];
      }
    }
  }
}
