/**
 * The decision rules of the game client (pythonmultiplayergame/main.py):
 * start-up validation of the player name and server address, the
 * classification of an input line into a command, which server messages
 * are displayed, and the client's connection state with the messages it
 * writes to its socket.
 */
module Client {
  import opened Wrappers
  import opened Protocol

  // ---------------------------------------------------------------------
  // str.strip()

  /** The characters for which Python's str.isspace() holds. */
  const WHITESPACE: set<char> := {
    '\t', '\n', '\U{000B}', '\U{000C}', '\r', '\U{001C}', '\U{001D}', '\U{001E}', '\U{001F}', ' ',
    '\U{0085}', '\U{00A0}', '\U{1680}',
    '\U{2000}', '\U{2001}', '\U{2002}', '\U{2003}', '\U{2004}', '\U{2005}', '\U{2006}',
    '\U{2007}', '\U{2008}', '\U{2009}', '\U{200A}',
    '\U{2028}', '\U{2029}', '\U{202F}', '\U{205F}', '\U{3000}'
  }

  predicate IsSpace(c: char) {
    c in WHITESPACE
  }

  predicate AllSpace(s: string) {
    forall i :: 0 <= i < |s| ==> IsSpace(s[i])
  }

  /** Whitespace fills s[lo..hi]. */
  predicate SpaceBetween(s: string, lo: int, hi: int)
    requires 0 <= lo <= hi <= |s|
  {
    forall k :: lo <= k < hi ==> IsSpace(s[k])
  }

  /** The first index at or after `i` that is not whitespace, or |s|. */
  function SkipStart(s: string, i: nat): (j: nat)
    requires i <= |s|
    ensures i <= j <= |s| && SpaceBetween(s, i, j)
    ensures j == |s| || !IsSpace(s[j])
    decreases |s| - i
  {
    if i < |s| && IsSpace(s[i]) then SkipStart(s, i + 1) else i
  }

  /** The end of s[lo..hi] once its trailing whitespace is dropped. */
  function SkipEnd(s: string, lo: nat, hi: nat): (e: nat)
    requires lo <= hi <= |s|
    ensures lo <= e <= hi && SpaceBetween(s, e, hi)
    ensures e == lo || !IsSpace(s[e - 1])
    decreases hi
  {
    if lo < hi && IsSpace(s[hi - 1]) then SkipEnd(s, lo, hi - 1) else hi
  }

  /** str.strip(): blank exactly when `s` is all whitespace, otherwise bounded by non-whitespace. */
  function Strip(s: string): (r: string)
    ensures |r| <= |s|
    ensures r == [] <==> AllSpace(s)
    ensures r == [] || (!IsSpace(r[0]) && !IsSpace(r[|r| - 1]))
  {
    var i := SkipStart(s, 0);
    var e := SkipEnd(s, i, |s|);
    assert e == i ==> SpaceBetween(s, 0, |s|);
    s[i..e]
  }

  /** SkipStart stops at the first non-whitespace character, wherever that is. */
  lemma {:induction false} SkipStartAt(s: string, i: nat, m: nat)
    requires i <= m <= |s| && SpaceBetween(s, i, m) && (m == |s| || !IsSpace(s[m]))
    ensures SkipStart(s, i) == m
    decreases m - i
  {
    if i < m {
      SkipStartAt(s, i + 1, m);
    }
  }

  /** SkipEnd stops after the last non-whitespace character, wherever that is. */
  lemma {:induction false} SkipEndAt(s: string, lo: nat, e: nat, hi: nat)
    requires lo < e <= hi <= |s| && SpaceBetween(s, e, hi) && !IsSpace(s[e - 1])
    ensures SkipEnd(s, lo, hi) == e
    decreases hi
  {
    if e < hi {
      SkipEndAt(s, lo, e, hi - 1);
    }
  }

  /** Strip removes exactly the surrounding whitespace and nothing else. */
  lemma StripSurrounded(pre: string, core: string, post: string)
    requires AllSpace(pre) && AllSpace(post)
    requires core != [] && !IsSpace(core[0]) && !IsSpace(core[|core| - 1])
    ensures Strip(pre + core + post) == core
  {
    var s := pre + core + post;
    var i, e := |pre|, |pre| + |core|;
    assert s[i] == core[0] && s[e - 1] == core[|core| - 1];
    assert SpaceBetween(s, 0, i) by {
      forall k | 0 <= k < i ensures IsSpace(s[k]) {
        assert s[k] == pre[k];
      }
    }
    assert SpaceBetween(s, e, |s|) by {
      forall k | e <= k < |s| ensures IsSpace(s[k]) {
        assert s[k] == post[k - e];
      }
    }
    SkipStartAt(s, 0, i);
    SkipEndAt(s, i, e, |s|);
    assert s[i..e] == core;
  }

  /** A string without surrounding whitespace is its own strip. */
  lemma StripFixed(r: string)
    requires r == [] || (!IsSpace(r[0]) && !IsSpace(r[|r| - 1]))
    ensures Strip(r) == r
  {
    if r != [] {
      assert r[0..|r|] == r;
    }
  }

  // ---------------------------------------------------------------------
  // main(): start-up validation

  datatype Settings = Settings(playerName: string, serverIp: string)

  datatype StartupError = EmptyPlayerName

  /**
   * The two prompts of main(): the stripped player name must not be
   * empty, and a blank server address means "localhost".
   */
  function Configure(nameLine: string, ipLine: string): (r: Result<Settings, StartupError>)
    ensures r.Failure? <==> AllSpace(nameLine)
    ensures r.Success? ==> r.value.playerName == Strip(nameLine) && r.value.playerName != []
    ensures r.Success? && AllSpace(ipLine) ==> r.value.serverIp == "localhost"
    ensures r.Success? && !AllSpace(ipLine) ==> r.value.serverIp == Strip(ipLine)
  {
    var name := Strip(nameLine);
    if name == [] then Failure(EmptyPlayerName)
    else
      var ip := Strip(ipLine);
      Success(Settings(name, if ip == [] then "localhost" else ip))
  }

  /** The name sent to the server is already stripped: stripping it again changes nothing. */
  lemma ConfiguredNameStripped(nameLine: string, ipLine: string)
    requires Configure(nameLine, ipLine).Success?
    ensures Strip(Configure(nameLine, ipLine).value.playerName) == Configure(nameLine, ipLine).value.playerName
  {
    StripFixed(Strip(nameLine));
  }

  // ---------------------------------------------------------------------
  // get_user_input(): one input line

  const QUIT: string := "/quit"
  const ACTION_PREFIX: string := "/action "

  datatype Command =
    | Quit                 // "/quit"
    | Act(action: string)  // "/action <action>"
    | Help                 // any other line starting with "/"
    | Say(message: string) // anything else, sent as chat

  predicate StartsWith(s: string, prefix: string) {
    |prefix| <= |s| && s[..|prefix|] == prefix
  }

  /** How get_user_input reads one line. */
  function Classify(line: string): (c: Command)
    ensures c == Quit <==> line == QUIT
    ensures c.Act? <==> StartsWith(line, ACTION_PREFIX)
    ensures c.Act? ==> line == ACTION_PREFIX + c.action
    ensures c == Help <==> StartsWith(line, "/") && line != QUIT && !StartsWith(line, ACTION_PREFIX)
    ensures c.Say? <==> !StartsWith(line, "/")
    ensures c.Say? ==> c.message == line
  {
    if StartsWith(line, "/") then
      if line == QUIT then Quit
      else if StartsWith(line, ACTION_PREFIX) then
        assert line == ACTION_PREFIX + line[8..];
        Act(line[8..])
      else Help
    else Say(line)
  }

  /** The line a user types for a command; Help has many, "/" is one of them. */
  function Render(c: Command): string {
    match c
    case Quit => QUIT
    case Act(a) => ACTION_PREFIX + a
    case Help => "/"
    case Say(m) => m
  }

  /** A chat line the classification can produce: one that does not start with "/". */
  predicate Typable(c: Command) {
    c.Say? ==> !StartsWith(c.message, "/")
  }

  /** Typing a command's line gives back the command ... */
  lemma ClassifyRender(c: Command)
    requires Typable(c)
    ensures Classify(Render(c)) == c
  {
    match c
    case Quit =>
    case Act(a) =>
      assert Render(c)[..|ACTION_PREFIX|] == ACTION_PREFIX;
    case Help =>
      assert !StartsWith("/", ACTION_PREFIX);
    case Say(m) =>
  }

  /** ... and every line that is not a help request is the line of its command. */
  lemma RenderClassify(line: string)
    ensures Typable(Classify(line))
    ensures Classify(line) != Help ==> Render(Classify(line)) == line
  {
  }

  /** The requests the input loop sends for `lines`, up to the first "/quit" or the end of input. */
  function Requests(lines: seq<string>): (r: seq<ClientMessage>)
    ensures |r| <= |lines|
  {
    if lines == [] then []
    else
      match Classify(lines[0])
      case Quit => []
      case Act(a) => [ActionRequest(a)] + Requests(lines[1..])
      case Help => Requests(lines[1..])
      case Say(m) => [ChatRequest(m)] + Requests(lines[1..])
  }

  /** Nothing typed after "/quit" is sent. */
  lemma {:induction false} RequestsStopAtQuit(before: seq<string>, after: seq<string>)
    requires QUIT !in before
    ensures Requests(before + [QUIT] + after) == Requests(before)
  {
    if before == [] {
      assert (before + [QUIT] + after)[0] == QUIT;
    } else {
      assert (before + [QUIT] + after)[0] == before[0];
      assert (before + [QUIT] + after)[1..] == before[1..] + [QUIT] + after;
      RequestsStopAtQuit(before[1..], after);
    }
  }

  /** Before "/quit", the loop handles the lines one after another, in order ... */
  lemma {:induction false} RequestsAppend(a: seq<string>, b: seq<string>)
    requires QUIT !in a
    ensures Requests(a + b) == Requests(a) + Requests(b)
  {
    if a == [] {
      assert a + b == b;
    } else {
      assert (a + b)[0] == a[0] && (a + b)[1..] == a[1..] + b;
      assert a[0] != QUIT && QUIT !in a[1..];
      RequestsAppend(a[1..], b);
      var head := Requests([a[0]]);
      assert [a[0]][1..] == [];
      assert head + (Requests(a[1..]) + Requests(b)) == (head + Requests(a[1..])) + Requests(b);
    }
  }

  /**
   * ... and each line sends its own request: an "/action " line the
   * action after the prefix, any other "/" line nothing, and any other
   * line itself as chat.
   */
  lemma RequestsSingle(line: string)
    ensures Requests([line]) ==
      if line == QUIT then []
      else if StartsWith(line, ACTION_PREFIX) then [ActionRequest(line[|ACTION_PREFIX|..])]
      else if StartsWith(line, "/") then []
      else [ChatRequest(line)]
  {
    assert [line][0] == line && [line][1..] == [];
    if line != QUIT && StartsWith(line, ACTION_PREFIX) {
      assert line == ACTION_PREFIX + line[|ACTION_PREFIX|..];
    }
  }

  /** Every request sent for `lines` comes from one of them: no join, and no text the user did not type. */
  lemma {:induction false} RequestsFromLines(lines: seq<string>, k: nat)
    requires k < |Requests(lines)|
    ensures Requests(lines)[k].ChatRequest? ==> Requests(lines)[k].message in lines
    ensures Requests(lines)[k].ActionRequest? ==> ACTION_PREFIX + Requests(lines)[k].action in lines
    ensures !Requests(lines)[k].Join?
  {
    var rest := Requests(lines[1..]);
    match Classify(lines[0])
    case Quit =>
    case Help =>
      RequestsFromLines(lines[1..], k);
    case Act(a) =>
      if k > 0 {
        RequestsFromLines(lines[1..], k - 1);
      }
    case Say(m) =>
      if k > 0 {
        RequestsFromLines(lines[1..], k - 1);
      }
  }

  // ---------------------------------------------------------------------
  // handle_server_message(): the display filter

  /** Whether the client prints `m`: its own chat and actions, echoed back by the server, are hidden. */
  function Displayed(playerName: string, m: ServerMessage): (shown: bool)
    ensures !shown <==> (m.Chat? || m.GameAction?) && m.player == playerName
  {
    match m
    case Chat(player, _, _) => player != playerName
    case GameAction(player, _, _) => player != playerName
    case _ => true
  }

  /** The messages printed, in arrival order, for the messages received. */
  function Shown(playerName: string, inbox: seq<ServerMessage>): (r: seq<ServerMessage>)
    ensures |r| <= |inbox|
    ensures forall m :: m in r ==> m in inbox && Displayed(playerName, m)
    ensures forall m :: m in inbox && Displayed(playerName, m) ==> m in r
  {
    if inbox == [] then []
    else
      var rest := Shown(playerName, inbox[1..]);
      assert forall m :: m in inbox <==> m == inbox[0] || m in inbox[1..];
      (if Displayed(playerName, inbox[0]) then [inbox[0]] else []) + rest
  }

  /** The filter works message by message, so it keeps the arrival order. */
  lemma {:induction false} ShownAppend(playerName: string, a: seq<ServerMessage>, b: seq<ServerMessage>)
    ensures Shown(playerName, a + b) == Shown(playerName, a) + Shown(playerName, b)
  {
    if a == [] {
      assert a + b == b;
    } else {
      assert (a + b)[0] == a[0] && (a + b)[1..] == a[1..] + b;
      ShownAppend(playerName, a[1..], b);
      var head := if Displayed(playerName, a[0]) then [a[0]] else [];
      assert head + (Shown(playerName, a[1..]) + Shown(playerName, b))
          == (head + Shown(playerName, a[1..])) + Shown(playerName, b);
    }
  }

  lemma ShownSingle(playerName: string, m: ServerMessage)
    ensures Shown(playerName, [m]) == if Displayed(playerName, m) then [m] else []
  {
    assert [m][1..] == [];
  }

  /** An inbox with nothing to hide is printed whole. */
  lemma {:induction false} ShownAll(playerName: string, inbox: seq<ServerMessage>)
    requires forall k :: 0 <= k < |inbox| ==> Displayed(playerName, inbox[k])
    ensures Shown(playerName, inbox) == inbox
  {
    if inbox != [] {
      assert forall k :: 0 <= k < |inbox[1..]| ==> inbox[1..][k] == inbox[k + 1];
      ShownAll(playerName, inbox[1..]);
      assert [inbox[0]] + inbox[1..] == inbox;
    }
  }

  /**
   * An inbox that is one message followed by departure announcements:
   * the client prints all of it, less the first message when that is
   * its own echo.
   */
  lemma ShownAfterFirst(playerName: string, inbox: seq<ServerMessage>)
    requires |inbox| >= 1 && forall k :: 1 <= k < |inbox| ==> inbox[k].PlayerLeft?
    ensures Shown(playerName, inbox) == if Displayed(playerName, inbox[0]) then inbox else inbox[1..]
  {
    var rest := inbox[1..];
    assert inbox == [inbox[0]] + rest;
    ShownAppend(playerName, [inbox[0]], rest);
    ShownSingle(playerName, inbox[0]);
    assert forall k :: 0 <= k < |rest| ==> rest[k] == inbox[k + 1];
    ShownAll(playerName, rest);
  }

  /** Announcements are always shown; chat and actions only when they come from another player. */
  lemma ShownWhich(playerName: string, inbox: seq<ServerMessage>, m: ServerMessage)
    requires m in inbox
    ensures m.Welcome? || m.PlayerJoined? || m.PlayerLeft? ==> m in Shown(playerName, inbox)
    ensures m.Chat? ==> (m in Shown(playerName, inbox) <==> m.player != playerName)
    ensures m.GameAction? ==> (m in Shown(playerName, inbox) <==> m.player != playerName)
  {
  }

  // ---------------------------------------------------------------------
  // GameClient

  const PORT: nat := 8765

  function NatToString(n: nat): string
    decreases n
  {
    var digit := ['0' + (n % 10) as char];
    if n < 10 then digit else NatToString(n / 10) + digit
  }

  /** The address connect_to_server dials. */
  function Endpoint(serverIp: string): (url: string)
    ensures url == "ws://" + serverIp + ":8765"
  {
    "ws://" + serverIp + ":" + NatToString(PORT)
  }

  class GameClient {
    var connected: bool
    var playerName: string
    /** The address of the open connection, if any. */
    var endpoint: Option<string>
    /** Every message written to the connection so far. */
    var sent: seq<ClientMessage>

    /** GameClient.__init__. */
    constructor ()
      ensures !connected && playerName == "" && endpoint == None && sent == []
    {
      connected, playerName, endpoint, sent := false, "", None, [];
    }

    /**
     * connect_to_server.  `dialOk` says whether websockets.connect
     * succeeds and `sendOk` whether sending the join message does.  A
     * failed send after a successful dial returns false yet leaves the
     * client marked connected, as main.py does.
     */
    method ConnectToServer(serverIp: string, name: string, dialOk: bool, sendOk: bool) returns (ok: bool)
      modifies this
      ensures ok <==> dialOk && sendOk
      ensures !dialOk ==> connected == old(connected) && playerName == old(playerName)
                          && endpoint == old(endpoint) && sent == old(sent)
      ensures dialOk ==> connected && playerName == name && endpoint == Some(Endpoint(serverIp))
      ensures dialOk ==> sent == old(sent) + (if sendOk then [Join(name)] else [])
    {
      if !dialOk {
        return false;
      }
      endpoint := Some(Endpoint(serverIp));
      connected := true;
      playerName := name;
      if !sendOk {
        return false;
      }
      sent := sent + [Join(name)];
      ok := true;
    }

    /** send_chat_message: nothing is sent unless connected. */
    method SendChatMessage(message: string)
      modifies this`sent
      ensures sent == old(sent) + (if connected then [ChatRequest(message)] else [])
    {
      if connected {
        sent := sent + [ChatRequest(message)];
      }
    }

    /** send_game_action: nothing is sent unless connected. */
    method SendGameAction(action: string)
      modifies this`sent
      ensures sent == old(sent) + (if connected then [ActionRequest(action)] else [])
    {
      if connected {
        sent := sent + [ActionRequest(action)];
      }
    }
  }

  /**
   * get_user_input over the lines the user types, the end of `lines`
   * standing for end of input: it runs while the client is connected,
   * sends the requests for the lines up to "/quit", and "/quit" marks
   * the client disconnected.
   */
  method GetUserInput(client: GameClient, lines: seq<string>)
    modifies client
    ensures client.sent == old(client.sent) + (if old(client.connected) then Requests(lines) else [])
    ensures client.connected == (old(client.connected) && QUIT !in lines)
    ensures client.playerName == old(client.playerName) && client.endpoint == old(client.endpoint)
  {
    var i := 0;
    while client.connected
      invariant 0 <= i <= |lines|
      invariant client.connected ==> old(client.connected) && QUIT !in lines[..i]
      invariant client.connected ==> client.sent + Requests(lines[i..]) == old(client.sent) + Requests(lines)
      invariant !client.connected ==> client.connected == (old(client.connected) && QUIT !in lines)
      invariant !client.connected ==> client.sent == old(client.sent) + (if old(client.connected) then Requests(lines) else [])
      invariant client.playerName == old(client.playerName) && client.endpoint == old(client.endpoint)
      decreases |lines| - i
    {
      if i == |lines| {
        assert lines[..i] == lines && lines[i..] == [];
        break;
      }
      assert lines[..i + 1] == lines[..i] + [lines[i]];
      assert lines[i..][0] == lines[i] && lines[i..][1..] == lines[i + 1..];
      match Classify(lines[i]) {
        case Quit =>
          assert Requests(lines[i..]) == [];
          client.connected := false;
          break;
        case Act(a) =>
          assert Requests(lines[i..]) == [ActionRequest(a)] + Requests(lines[i + 1..]);
          ghost var before := client.sent;
          client.SendGameAction(a);
          assert client.sent + Requests(lines[i + 1..]) == before + ([ActionRequest(a)] + Requests(lines[i + 1..]));
        case Help =>
          assert Requests(lines[i..]) == Requests(lines[i + 1..]);
        case Say(m) =>
          assert Requests(lines[i..]) == [ChatRequest(m)] + Requests(lines[i + 1..]);
          ghost var before := client.sent;
          client.SendChatMessage(m);
          assert client.sent + Requests(lines[i + 1..]) == before + ([ChatRequest(m)] + Requests(lines[i + 1..]));
      }
      i := i + 1;
    }
  }
}
