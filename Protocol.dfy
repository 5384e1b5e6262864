/**
 * The tagged messages exchanged between the game client and the relay
 * server (pythonmultiplayergame/server.py and main.py).  JSON text itself
 * is not modelled: a decoded JSON object is a map from field names to
 * string values, and the messages the server emits are a datatype.
 */
module Protocol {

  /** The messages the server writes to a connection. */
  datatype ServerMessage =
    | Welcome(text: string, playersCount: nat)
    | PlayerJoined(text: string, playersCount: nat)
    | PlayerLeft(text: string, playersCount: nat)
    | Chat(player: string, message: string, timestamp: string)
    | GameAction(player: string, action: string, timestamp: string)

  /** The messages the client writes to its connection. */
  datatype ClientMessage =
    | Join(name: string)
    | ChatRequest(message: string)
    | ActionRequest(action: string)

  /** A decoded JSON object whose values are all strings. */
  type JsonObject = map<string, string>

  /** The JSON object the client serialises for each of its messages. */
  function ToObject(c: ClientMessage): (o: JsonObject)
    ensures |o| == 2
    ensures c.Join? ==> TypeOf(o) == "join" && "name" in o && o["name"] == c.name
    ensures c.ChatRequest? ==> TypeOf(o) == "chat" && "message" in o && o["message"] == c.message
    ensures c.ActionRequest? ==> TypeOf(o) == "game_action" && "action" in o && o["action"] == c.action
  {
    match c
    case Join(name) => map["type" := "join", "name" := name]
    case ChatRequest(message) => map["type" := "chat", "message" := message]
    case ActionRequest(action) => map["type" := "game_action", "action" := action]
  }

  /** Two different messages never serialise to the same object. */
  lemma ToObjectInjective(a: ClientMessage, b: ClientMessage)
    requires ToObject(a) == ToObject(b)
    ensures a == b
  {
  }

  /** Python's message_data.get("type", ""): the "type" field, or "" when there is none. */
  function TypeOf(o: JsonObject): (t: string)
    ensures "type" in o ==> t == o["type"]
    ensures "type" !in o ==> t == ""
  {
    if "type" in o then o["type"] else ""
  }

  function WelcomeText(name: string): string {
    "Welcome " + name + "! You're connected to the game."
  }

  function JoinedText(name: string): string {
    name + " joined the game!"
  }

  function LeftText(name: string): string {
    name + " left the game."
  }

  /** A departure announcement names exactly one player. */
  lemma LeftTextInjective(a: string, b: string)
    requires LeftText(a) == LeftText(b)
    ensures a == b
  {
    assert |a| == |b|;
    assert LeftText(a)[..|a|] == a;
    assert LeftText(b)[..|b|] == b;
  }

  /** A join announcement names exactly one player. */
  lemma JoinedTextInjective(a: string, b: string)
    requires JoinedText(a) == JoinedText(b)
    ensures a == b
  {
    assert |a| == |b|;
    assert JoinedText(a)[..|a|] == a;
    assert JoinedText(b)[..|b|] == b;
  }
}
