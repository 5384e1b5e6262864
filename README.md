# Multiplayer relay, game client and house game, in Dafny

This project models three small programs of the NielsSimon repository and
proves properties of the models.

- **The relay server** (`pythonmultiplayergame/server.py`, class
  `GameServer`) keeps a registry of connected players and a mirrored player
  count. It welcomes a joining connection and announces it to the others. It
  relays chat and game actions to everybody, and removes connections whose
  sends fail, announcing each departure.
  - Module `Relay` states the server's behaviour as functions on a state
    value: `Register`, `Unregister`, `BroadcastAll` and its `Cleanup` loop,
    `Dispatch`, `RelayLoop`, `Serve` and `Connection`.
  - Module `Server` is the class itself. Its fields are updated in place by
    methods with loops, and each method is proved to leave exactly the state
    the function computes.
  - Module `RelayLemmas` proves what each operation promises: who receives
    which message, with which count, and what is removed.
- **The game client** (`pythonmultiplayergame/main.py`) covers:
  - the start-up validation of the name and server address;
  - the classification of a typed line as quit, action, help or chat;
  - the input loop that sends requests while connected;
  - the send methods, which are gated on the connection;
  - the display filter that hides the player's own echoed chat and actions.
  These are in module `Client`; the stateful parts are the class
  `GameClient` and the method `GetUserInput`.
- **The house game** (`NielsSimon.Console/Program.cs`): a player starts with
  100 money, a house costs 10, and the console loop understands "nextday",
  "money" and "buyhouse" in any case. Module `HouseGame` keeps the classes
  `Game`, `Player`, `House` and `Decoration`. `Game.Step` and `Game.Start` are
  proved against the value view `Apply`/`Run`, which carries the conservation
  law `money + 10 * houses == 100`.

Module `Protocol` holds the message shapes and announcement texts both sides
share. `Wrappers` holds `Option` and `Result`. `EndToEnd` connects the
client's requests to the server's handling of them.

How the environment is represented:
- A websocket is an opaque number.
- Which sends raise `ConnectionClosed` is given by a set `dead` of
  connections whose transport is gone.
- Every frame the server manages to write is appended to an `outbox` log of
  (recipient, message).
- A decoded JSON object is a map from field names to strings.
- Timestamps are opaque strings passed in by the caller.

Behaviour of the server that the model keeps as the code has it:
- Registering a connection that is already present is not rejected. Its
  record is overwritten, it keeps its place in the key order, and the count
  is unchanged (`Relay.Register`).
- The join handshake accepts an empty name (`RelayLemmas.EmptyNameAccepted`).
- A `chat` frame without "message", or a `game_action` frame without
  "action", raises `KeyError`. Only `json.JSONDecodeError` is caught inside
  the loop, so the exception ends the connection, and the `finally` clause
  unregisters it (`RelayLemmas.MissingFieldRaises`).
- `handle_player_message` looks up the sender before it reads the frame. A
  frame from a connection that a failed send has already removed raises
  `KeyError`, whatever the frame holds (`Relay.Dispatch`, `Relay.RelayLoop`).

## Model

| member | source | states |
|---|---|---|
| Protocol.ToObject | pythonmultiplayergame/main.py:27-90 | each client message becomes a two-field object whose type is "join", "chat" or "game_action" and whose second field carries the name, message or action the server reads |
| Protocol.ToObjectInjective | pythonmultiplayergame/main.py:27-90 | different client messages never serialise to the same object |
| Protocol.TypeOf | pythonmultiplayergame/server.py:92 | the "type" field, or "" when the object has none |
| Protocol.LeftTextInjective | pythonmultiplayergame/server.py:56-60 | the "<name> left the game." text determines the name of the player who left |
| Protocol.JoinedTextInjective | pythonmultiplayergame/server.py:40-44 | the "<name> joined the game!" text determines the name of the player who joined |
| Relay.Without | pythonmultiplayergame/server.py:50 | deleting a key from the insertion order removes exactly that id, keeps the others distinct, and changes nothing if the id is absent; the order of the others is stated by `Relay.WithoutKeepsOrder` |
| Relay.WithoutKeepsOrder | pythonmultiplayergame/server.py:50 | deleting a key keeps the remaining keys in their insertion order: removing the one occurrence from `a + [w] + b` leaves `a + b` |
| Relay.Failed | pythonmultiplayergame/server.py:72-77 | the `disconnected` list holds exactly the attempted ids whose send raised, each once |
| Relay.FanoutTargets | pythonmultiplayergame/server.py:73-77 | every frame of a send pass carries the broadcast message and goes to one of the attempted ids that is reachable |
| Relay.Unregister | pythonmultiplayergame/server.py:46-60 | an unknown id leaves the state unchanged; a known id is removed together with any connection that fails during the departure broadcast; the registry only shrinks, surviving records are untouched, the count mirrors the size, and only live registered ids receive frames |
| Relay.Cleanup | pythonmultiplayergame/server.py:79-81 | after the cleanup loop, every collected id is gone and every reachable registered id is still present |
| Relay.BroadcastAll | pythonmultiplayergame/server.py:69-81 | an empty registry does nothing; otherwise one send to every registered id comes first in the log, and afterwards the registry is exactly the old one minus the dead connections |
| Relay.Register | pythonmultiplayergame/server.py:22-44 | the id maps to the record (name, time); the keys grow by exactly that id; other records are unchanged; re-registering keeps the order and the count; a new id goes to the end of the order; the count mirrors the size; nothing is removed |
| Relay.Dispatch | pythonmultiplayergame/server.py:89-114 | an unregistered sender raises KeyError whatever the frame; from a registered sender, a "chat" fails exactly when "message" is missing and a "game_action" exactly when "action" is missing, raising KeyError naming that field; any other type, or none, succeeds and changes nothing; a relay keeps the state valid and only removes dead connections |
| Relay.RelayLoop | pythonmultiplayergame/server.py:91-133 | the relay loop keeps the state valid, only evolves it by broadcasts, and never removes a reachable player; an attribute error on a non-object frame only escapes while the sender is registered, a KeyError for the sender only once it is not, and a missing field only for "message" or "action"; what each frame does is stated by `RelayLemmas.RelayStopsAt`, `RelayLemmas.RelayStopsAtNonObject`, `RelayLemmas.RelayContinues` and `RelayLemmas.UndecodableSkipped` |
| Relay.Serve | pythonmultiplayergame/server.py:118-138 | the handshake registers at most the connecting id, and a first frame that is not a join with a name leaves the state unchanged |
| Relay.Connection | pythonmultiplayergame/server.py:116-140 | however the connection ends, the connection is not registered afterwards; other reachable players stay; without a join it is exactly one unregistration |
| RelayLemmas.ReceivedFanout | pythonmultiplayergame/server.py:73-77 | over distinct ids, a send pass gives each reachable attempted id the message exactly once and nobody else anything |
| RelayLemmas.CountMatchesOrder | pythonmultiplayergame/server.py:28 | the player count equals the number of keys in iteration order |
| RelayLemmas.RegisterAnnouncements | pythonmultiplayergame/server.py:33-44 | the joining connection gets one welcome with the new size; every other registered reachable connection gets one player_joined with that size; the joining connection never gets its own player_joined |
| RelayLemmas.BroadcastNoFailures | pythonmultiplayergame/server.py:69-81 | with no dead registered connection, broadcast_to_all is exactly one send pass and no cleanup |
| RelayLemmas.BroadcastReachesEveryone | pythonmultiplayergame/server.py:69-77 | with no dead registered connection, every registered connection, and nobody else, receives the message once, and the registry is unchanged |
| RelayLemmas.BroadcastSkipsDead | pythonmultiplayergame/server.py:73-81 | whatever fails, a dead or unregistered connection receives nothing from a broadcast or its cleanup |
| RelayLemmas.BroadcastFirstPass | pythonmultiplayergame/server.py:72-81 | whatever fails, every registered reachable connection receives the broadcast message first, followed only by player_left announcements from the cleanup (so exactly once for a chat or action) |
| RelayLemmas.FanoutCount | pythonmultiplayergame/server.py:62-77 | each send of a pass either delivers one frame or, when it raises, adds its connection to `disconnected`: the two counts add up to the number of ids attempted |
| RelayLemmas.UnregisterOnlyLeft | pythonmultiplayergame/server.py:46-60 | unregister_player writes nothing but player_left announcements, however many cleanups its broadcast triggers |
| RelayLemmas.CleanupOnlyLeft | pythonmultiplayergame/server.py:79-81 | the cleanup loop of broadcast_to_all writes nothing but player_left announcements |
| RelayLemmas.BroadcastCleanupOnlyLeft | pythonmultiplayergame/server.py:72-81 | after the send pass of broadcast_to_all, everything written is a player_left announcement |
| RelayLemmas.BroadcastOnlyLeft | pythonmultiplayergame/server.py:56-81 | broadcasting a player_left writes nothing but player_left announcements |
| RelayLemmas.BroadcastDelivers | pythonmultiplayergame/server.py:69-81 | for any set of failing connections: a registered reachable connection receives the message first and then only player_left announcements; a dead or unregistered one receives nothing; with no failure, every registered connection receives exactly the message |
| RelayLemmas.FailedSingle | pythonmultiplayergame/server.py:72-77 | when exactly one registered connection is dead, it is all the send pass collects |
| RelayLemmas.SingleFailureCleanup | pythonmultiplayergame/server.py:79-81 | with one failed connection, the cleanup is one unregistration applied after the first pass |
| RelayLemmas.BroadcastSingleFailure | pythonmultiplayergame/server.py:69-81 | with exactly one dead registered connection, that connection is removed and the count drops by one; each other player receives the message, then one player_left naming the removed player with the new count; the dead connection receives nothing |
| RelayLemmas.UnregisterIdempotent | pythonmultiplayergame/server.py:46-48 | unregistering twice is unregistering once |
| RelayLemmas.UnregisterAnnounces | pythonmultiplayergame/server.py:46-60 | unregistering a present id, with nobody else failing, removes exactly that entry; the count drops by one, and each remaining player hears "<name> left the game." once with the new count |
| RelayLemmas.ChatReachesEveryone | pythonmultiplayergame/server.py:94-102 | for any set of failing connections, a chat from a registered sender succeeds; the registry keeps exactly the reachable players; each reachable registered player, the sender included, receives the chat with the original text and the sender's name first and exactly once, followed only by player_left announcements; a dead or unregistered connection receives nothing; with no failure, the registry is unchanged and each player receives exactly the chat |
| RelayLemmas.ActionReachesEveryone | pythonmultiplayergame/server.py:105-113 | the same as `RelayLemmas.ChatReachesEveryone` for a game action with its original action text |
| RelayLemmas.UndecodableSkipped | pythonmultiplayergame/server.py:127-133 | an undecodable frame in the relay loop leaves the outcome as if it had not arrived |
| RelayLemmas.NoJoinNoEffect | pythonmultiplayergame/server.py:120-140 | a connection whose first frame is not a join with a name leaves the server unchanged |
| RelayLemmas.EmptyNameAccepted | pythonmultiplayergame/server.py:123-124 | a join with an empty name registers the connection under the empty name |
| RelayLemmas.MissingFieldRaises | pythonmultiplayergame/server.py:94-140 | after the join, any chat object without "message", or game action without "action", ends the connection with KeyError naming the field, and the connection is still unregistered |
| RelayLemmas.JoinThenRelay | pythonmultiplayergame/server.py:120-127 | a first frame that is a join with a name registers the connection under that name and hands the remaining frames to the relay loop |
| RelayLemmas.RelayStopsAt | pythonmultiplayergame/server.py:127-130 | a frame the handler rejects ends the relay loop with that exception and the state as it was |
| RelayLemmas.RelayStopsAtNonObject | pythonmultiplayergame/server.py:91-92 | a frame that decodes to something other than an object ends the relay loop, with the state as it was: `.get` raises while the sender is registered, and the lookup of the sender raises KeyError once a failed send has removed it |
| RelayLemmas.RelayContinues | pythonmultiplayergame/server.py:127-130 | a frame the handler accepts is handled and the loop goes on with the next frame from the state the handler left |
| Server.GameServer.constructor | pythonmultiplayergame/server.py:13-20 | a new server has an empty registry, a count of zero and an empty log |
| Server.GameServer.SendToPlayer | pythonmultiplayergame/server.py:62-67 | changes only the log: one frame to that connection unless it is dead |
| Server.GameServer.BroadcastToOthers | pythonmultiplayergame/server.py:83-87 | changes only the log, by one send pass over the key order that skips the sender |
| Server.GameServer.SendToEach | pythonmultiplayergame/server.py:72-77 | changes only the log, by one send pass over the key order, and returns exactly the failed ids in order |
| Server.GameServer.BroadcastToAll | pythonmultiplayergame/server.py:69-81 | leaves exactly the state of `Relay.BroadcastAll` |
| Server.GameServer.UnregisterPlayer | pythonmultiplayergame/server.py:46-60 | leaves exactly the state of `Relay.Unregister` |
| Server.GameServer.RegisterPlayer | pythonmultiplayergame/server.py:22-44 | leaves exactly the state of `Relay.Register` |
| Server.GameServer.HandlePlayerMessage | pythonmultiplayergame/server.py:89-114 | leaves exactly the state of `Relay.Dispatch`, or returns its KeyError with the state unchanged |
| Server.GameServer.RelayMessages | pythonmultiplayergame/server.py:91-133 | leaves exactly the state and exit of `Relay.RelayLoop`, including the KeyError for a frame that arrives after the sender was removed |
| Server.GameServer.HandlePlayerConnection | pythonmultiplayergame/server.py:116-140 | leaves exactly the state and exit of `Relay.Connection` |
| Client.Strip | pythonmultiplayergame/main.py:128 | the stripped string is empty exactly when the input is all whitespace, and otherwise starts and ends with non-whitespace |
| Client.StripSurrounded | pythonmultiplayergame/main.py:128 | stripping removes exactly the surrounding whitespace and keeps the rest |
| Client.StripFixed | pythonmultiplayergame/main.py:128 | a string without surrounding whitespace is unchanged by stripping |
| Client.Configure | pythonmultiplayergame/main.py:127-137 | start-up fails exactly when the name line is all whitespace; otherwise the name is the stripped line, and the address is "localhost" when blank or else the stripped line |
| Client.ConfiguredNameStripped | pythonmultiplayergame/main.py:128-131 | the accepted name has no surrounding whitespace |
| Client.Classify | pythonmultiplayergame/main.py:97-115 | "/quit" exactly is quit; a "/action " prefix is an action with the rest of the line (possibly empty); any other "/" line, "/action" included, is help; anything else is chat with the line verbatim |
| Client.ClassifyRender | pythonmultiplayergame/main.py:97-115 | the line of each command classifies back to that command |
| Client.RenderClassify | pythonmultiplayergame/main.py:97-115 | every line except a help request is exactly the line of its command |
| Client.RequestsStopAtQuit | pythonmultiplayergame/main.py:99-101 | nothing typed after "/quit" is sent |
| Client.RequestsFromLines | pythonmultiplayergame/main.py:102-115 | every request the loop sends is a chat with a typed line or an action whose prefixed line was typed, never a join |
| Client.Requests | pythonmultiplayergame/main.py:94-115 | the input loop sends at most one request per line read; which request each line sends, and in what order, is stated by `Client.RequestsAppend` and `Client.RequestsSingle` |
| Client.RequestsAppend | pythonmultiplayergame/main.py:94-115 | before any "/quit", the requests for `a + b` are those for `a` followed by those for `b`, so lines are handled one by one in the order typed |
| Client.RequestsSingle | pythonmultiplayergame/main.py:97-115 | one line sends: nothing for "/quit" or any other "/" line that is not an action; the text after "/action " as an action; any other line verbatim as chat |
| Client.Shown | pythonmultiplayergame/main.py:52-74 | no more messages are printed than received, and the printed ones are exactly the received messages that pass the display filter; their order is stated by `Client.ShownAppend` and `Client.ShownSingle` |
| Client.Displayed | pythonmultiplayergame/main.py:52-74 | a message is hidden exactly when it is a chat or game action whose player is this client's name |
| Client.ShownAppend | pythonmultiplayergame/main.py:52-74 | the filter works message by message: the messages shown for `a + b` are those shown for `a` followed by those shown for `b`, so arrival order is kept |
| Client.ShownSingle | pythonmultiplayergame/main.py:52-74 | one message is printed exactly when it passes the display filter |
| Client.ShownAll | pythonmultiplayergame/main.py:56-66 | an inbox without own echoes is printed whole, in order |
| Client.ShownAfterFirst | pythonmultiplayergame/main.py:64-74 | a message followed by player_left announcements is printed whole, less the first message when it is the client's own echo |
| Client.ShownWhich | pythonmultiplayergame/main.py:56-74 | welcome, player_joined and player_left are always shown; chat and actions are shown exactly when their player is not this client's name |
| Client.GameClient.constructor | pythonmultiplayergame/main.py:14-17 | a new client is disconnected, nameless, and has sent nothing |
| Client.GameClient.ConnectToServer | pythonmultiplayergame/main.py:19-37 | it succeeds exactly when dialing and sending succeed; a failed dial changes nothing; a successful dial marks the client connected with the name and the "ws://<ip>:8765" address, and when the send succeeds the join with the name is the one message sent |
| Client.GameClient.SendChatMessage | pythonmultiplayergame/main.py:76-82 | sends exactly one chat request with the message when connected, nothing otherwise |
| Client.GameClient.SendGameAction | pythonmultiplayergame/main.py:84-90 | sends exactly one action request with the action when connected, nothing otherwise |
| Client.Endpoint | pythonmultiplayergame/main.py:22 | the client dials "ws://<ip>:8765" |
| Client.GetUserInput | pythonmultiplayergame/main.py:92-120 | a connected client sends the requests of the lines before the first "/quit"; "/quit" marks it disconnected; end of input leaves it connected; a disconnected client sends nothing; the requests are `Client.Requests` of the lines, which `Client.RequestsAppend` and `Client.RequestsSingle` spell out line by line |
| EndToEnd.JoinRegisters | pythonmultiplayergame/server.py:120-124 | the join object the client sends passes the handshake and registers the connection under that name |
| EndToEnd.ChatRequestBroadcast | pythonmultiplayergame/main.py:76-82 | the client's chat request, from a registered connection, is broadcast as that player's chat |
| EndToEnd.ActionRequestBroadcast | pythonmultiplayergame/main.py:84-90 | the client's action request, from a registered connection, is broadcast as that player's game action |
| EndToEnd.OwnChatHidden | pythonmultiplayergame/main.py:68-70 | for any set of failing connections, a reachable player receives the chat first; the sender's client hides exactly that echo and shows every announcement after it, and every other player, under another name, shows all of it; with no failure, the chat is all that arrives |
| EndToEnd.FirstJoin | pythonmultiplayergame/server.py:22-37 | the first player on an empty server is welcomed with a count of one |
| EndToEnd.SecondJoin | pythonmultiplayergame/server.py:22-44 | a second player is welcomed with a count of two, and the first is told of the arrival with the same count |
| EndToEnd.SecondLeaves | pythonmultiplayergame/server.py:46-60 | when one of two players leaves, the other is told, with a count of one |
| HouseGame.Increment | NielsSimon.Console/Program.cs:55 | `DayCount++` as an unchecked C# int: the result is the one 32-bit int congruent to `x + 1` modulo 2^32, so it wraps from the largest value to the smallest |
| HouseGame.Lower | NielsSimon.Console/Program.cs:52 | lower-casing keeps the length and lowers each ASCII capital in place |
| HouseGame.LowerIdempotent | NielsSimon.Console/Program.cs:52 | lower-casing twice is lower-casing once |
| HouseGame.ParseIgnoresCase | NielsSimon.Console/Program.cs:52-72 | a line and its lower-cased form select the same branch |
| HouseGame.ParseKeywords | NielsSimon.Console/Program.cs:52-71 | "nextday", "money" and "buyhouse" select their branches, and a null line the default |
| HouseGame.Parse | NielsSimon.Console/Program.cs:52-72 | a line selects "nextday", "money" or "buyhouse" exactly when its lower-cased form is that word; everything else, and a null line, is the default branch |
| HouseGame.Apply | NielsSimon.Console/Program.cs:52-72 | "nextday" increments the day and changes nothing else, and nothing else changes the day; a purchase with enough money costs 10 and adds a house; a purchase without enough money, "money", and any other or null line change nothing |
| HouseGame.ApplyConserves | NielsSimon.Console/Program.cs:101-113 | every command keeps money non-negative and `money + 10 * houses == 100` |
| HouseGame.RunConserves | NielsSimon.Console/Program.cs:43-74 | any sequence of lines keeps the conservation law |
| HouseGame.Run | NielsSimon.Console/Program.cs:46-73 | over any lines read, the day stays a 32-bit int, houses are never lost, money never grows, and money plus 10 per house is unchanged |
| HouseGame.RunDays | NielsSimon.Console/Program.cs:54-57 | the day counter goes up by the number of "nextday" lines, in any case, modulo 2^32, and exactly so while it does not overflow |
| HouseGame.RunBuys | NielsSimon.Console/Program.cs:64-67 | of several purchases in a row, as many succeed as the money pays for and the rest change nothing |
| HouseGame.FreshBuys | NielsSimon.Console/Program.cs:64-67 | from a fresh game, exactly the first ten purchases succeed |
| HouseGame.EleventhBuyRejected | NielsSimon.Console/Program.cs:64-67 | from a fresh game, the eleventh purchase leaves the game unchanged |
| HouseGame.Decoration.constructor | NielsSimon.Console/Program.cs:122-127 | the decoration holds the given name, cost and extra income |
| HouseGame.Player.constructor | NielsSimon.Console/Program.cs:77-80 | a player starts with 100 money and no houses |
| HouseGame.House.constructor | NielsSimon.Console/Program.cs:89-99 | a house costs 10 and has no decorations |
| HouseGame.House.Buy | NielsSimon.Console/Program.cs:101-113 | with enough money, money drops by the price and this house is appended to the player's houses; otherwise nothing changes |
| HouseGame.Game.constructor | NielsSimon.Console/Program.cs:38-41 | a new game is at day 0 with a fresh player, and the conservation law holds |
| HouseGame.Game.Step | NielsSimon.Console/Program.cs:52-72 | one line changes the counters exactly as `Apply` says and keeps the conservation law; a successful purchase appends one new house, and otherwise the house list is unchanged |
| HouseGame.Game.Start | NielsSimon.Console/Program.cs:43-74 | the loop over the lines read changes the counters exactly as `Run` says and keeps the conservation law |

## Left out

- Network plumbing is not modelled: `websockets.serve` and `connect`, `recv`, the socket iteration itself, `start_server` and the host lookup. Sends are appends to the log, received frames are an input sequence, and `dead` stands for the transport.
- Concurrency is not modelled: the server's coroutines interleaving on one dictionary, and the client's input thread with `run_coroutine_threadsafe`. One sequential driver is modelled.
- JSON text is not modelled. Decoding a frame is given as `Undecodable`, `NotObject` or an object. Objects hold only string values, so a non-string `name` or `type` is not represented.
- The time of day from `datetime.now()` is not modelled; timestamps and `joined_at` are opaque strings passed in by the caller.
- Printed output, help text and `Player.PrintMoney` are left out; only their effect on state (none) is modelled.
- The failure set `dead` is fixed for the duration of one call. A connection that dies part-way through a broadcast is not modelled.
- The unused `game_state["messages"]` and `"game_started"` fields are left out, and so are `House.Income` and `House.AvailabeDecorations`.
- The port mismatch is not modelled: the client dials 8765 (recorded in `Client.Endpoint`) and the server binds 8766.
- The SignalR chat at the top of NielsSimon.Console/Program.cs (lines 1-34) is left out; it is I/O over a library client.
- pythonmultiplayergame/chat_peer.py is not part of this model; it is raw socket I/O driven by two threads.
- The client's `listen_for_messages` loop is not modelled, and neither is setting `connected` to false when it ends. Its effect on display is `Client.Shown` over the received messages.
- Client.GetUserInput: an exception raised by `input()` other than end of input is not modelled. End of input is the end of `lines`.
- Client.GameClient.SendChatMessage and Client.GameClient.SendGameAction: a failing send on an open connection is not modelled.
- Client.Strip: whitespace is the set of characters Python's `str.isspace` accepts. Unicode normalisation is not modelled.
- HouseGame.Lower: C# `ToLower` is modelled on ASCII letters only. The commands it is compared against are ASCII, so no command is matched differently; a non-ASCII capital could only matter in a line that matches no command either way.
- HouseGame.House.constructor: `Price` is a mutable public field in C# but nothing assigns it, so the model makes it a constant.
- HouseGame.Game.Start: the console loop never ends; the model runs it over a finite sequence of lines read, each `None` standing for a null line.
- RelayLemmas.UnregisterAnnounces: states the departure broadcast only when no other connection fails during it. With further failures, `Relay.Unregister` and `RelayLemmas.BroadcastSkipsDead` state what still holds.
- RelayLemmas.BroadcastSingleFailure: states exact receipts only for one failed connection. With more, `Relay.BroadcastAll`, `RelayLemmas.BroadcastFirstPass` and `RelayLemmas.BroadcastSkipsDead` state the registry afterwards and the order of receipts.
- Server.GameServer.SendToEach and Server.GameServer.RelayMessages: these are the first loop of `broadcast_to_all` and the relay loop of `handle_player_connection`, written as methods of their own so that each loop's invariant stands alone.
