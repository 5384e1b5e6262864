/**
 * Client and server together: the objects the client sends drive the
 * server's handshake and dispatch, and the client's display filter hides
 * exactly the echo of its own chat.  The steps of a two-player session
 * are traced through the server model.
 */
module EndToEnd {
  import opened Wrappers
  import opened Protocol
  import opened Relay
  import opened RelayLemmas
  import opened Client

  /** The join object of connect_to_server opens a session: the connection is registered under that name. */
  lemma JoinRegisters(s: ServerState, ws: ConnId, name: string, at: string, rest: seq<Frame>, dead: set<ConnId>)
    requires Valid(s)
    ensures StartsWithJoin([Frame(Object(ToObject(Join(name))), at)] + rest)
    ensures var r := Serve(s, ws, [Frame(Object(ToObject(Join(name))), at)], dead);
      ws in r.state.records && r.state.records[ws] == PlayerRecord(name, at)
  {
    var frames := [Frame(Object(ToObject(Join(name))), at)];
    assert frames[1..] == [];
  }

  /** A chat request from a registered client is broadcast as that player's chat. */
  lemma ChatRequestBroadcast(s: ServerState, ws: ConnId, message: string, at: string, dead: set<ConnId>)
    requires Valid(s) && ws in s.records
    ensures Dispatch(s, ws, ToObject(ChatRequest(message)), at, dead)
         == Success(BroadcastAll(s, Chat(s.records[ws].name, message, at), dead))
  {
    var data := ToObject(ChatRequest(message));
    assert TypeOf(data) == "chat" && "message" in data && data["message"] == message;
    DispatchBroadcasts(s, ws, data, at, dead);
  }

  /** An action request from a registered client is broadcast as that player's game action. */
  lemma ActionRequestBroadcast(s: ServerState, ws: ConnId, action: string, at: string, dead: set<ConnId>)
    requires Valid(s) && ws in s.records
    ensures Dispatch(s, ws, ToObject(ActionRequest(action)), at, dead)
         == Success(BroadcastAll(s, GameAction(s.records[ws].name, action, at), dead))
  {
    var data := ToObject(ActionRequest(action));
    assert TypeOf(data) == "game_action" && "action" in data && data["action"] == action;
    DispatchBroadcasts(s, ws, data, at, dead);
  }

  /**
   * The server echoes a chat to its sender, whose client hides it, while
   * every other player, under another name, is shown it; what follows it
   * (departures caused by failed sends) is shown to everybody.
   */
  lemma OwnChatHidden(s: ServerState, ws: ConnId, message: string, at: string, dead: set<ConnId>, y: ConnId)
    requires Valid(s) && ws in s.records && y in s.records && y !in dead
    requires y != ws ==> s.records[y].name != s.records[ws].name
    ensures var r := Dispatch(s, ws, ToObject(ChatRequest(message)), at, dead);
      && r.Success?
      && var got := Received(NewFrames(s, r.value), y);
         && |got| >= 1 && got[0] == Chat(s.records[ws].name, message, at)
         && Shown(s.records[y].name, got) == (if y == ws then got[1..] else got)
         && (s.records.Keys * dead == {} ==> got == [Chat(s.records[ws].name, message, at)])
  {
    var data := ToObject(ChatRequest(message));
    assert TypeOf(data) == "chat" && "message" in data && data["message"] == message;
    ChatReachesEveryone(s, ws, data, at, dead, y);
    var got := Received(NewFrames(s, Dispatch(s, ws, data, at, dead).value), y);
    ShownAfterFirst(s.records[y].name, got);
  }

  // ---------------------------------------------------------------------
  // A session of two players, no failed connections

  /** The first player on an empty server is welcomed with a count of one. */
  lemma FirstJoin(s: ServerState, a: ConnId, name: string, at: string)
    requires Valid(s) && s.records == map[]
    ensures Register(s, a, name, at, {}).records == map[a := PlayerRecord(name, at)]
    ensures Received(NewFrames(s, Register(s, a, name, at, {})), a) == [Welcome(WelcomeText(name), 1)]
  {
    RegisterAnnouncements(s, a, name, at, {}, a);
  }

  /** A second player is welcomed with a count of two, and the first is told of the arrival. */
  lemma SecondJoin(s: ServerState, a: ConnId, b: ConnId, name: string, at: string)
    requires Valid(s) && s.records.Keys == {a} && b != a
    ensures Register(s, b, name, at, {}).records.Keys == {a, b}
    ensures Received(NewFrames(s, Register(s, b, name, at, {})), b) == [Welcome(WelcomeText(name), 2)]
    ensures Received(NewFrames(s, Register(s, b, name, at, {})), a) == [PlayerJoined(JoinedText(name), 2)]
  {
    SecondJoinCount(s, a, b, name, at);
    RegisterAnnouncements(s, b, name, at, {}, b);
    RegisterAnnouncements(s, b, name, at, {}, a);
  }

  lemma SecondJoinCount(s: ServerState, a: ConnId, b: ConnId, name: string, at: string)
    requires Valid(s) && s.records.Keys == {a} && b != a
    ensures var r := Register(s, b, name, at, {});
      r.records.Keys == {a, b} && |r.records| == 2 && b !in s.records
  {
    assert |s.records| == |s.records.Keys| == |{a}| == 1;
  }

  /** One of two players leaves; the other is told, with a count of one. */
  lemma SecondLeaves(s: ServerState, a: ConnId, b: ConnId)
    requires Valid(s) && s.records.Keys == {a, b} && b != a
    ensures Unregister(s, b, {}).records.Keys == {a}
    ensures Received(NewFrames(s, Unregister(s, b, {})), a) == [PlayerLeft(LeftText(s.records[b].name), 1)]
  {
    assert |s.records| == |s.records.Keys| == |{a, b}| == 2;
    UnregisterAnnounces(s, b, {}, a);
  }
}
