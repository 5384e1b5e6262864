/**
 * The relay server of pythonmultiplayergame/server.py as functions on a
 * value: the player registry, the mirrored player count and the log of
 * every frame the server managed to write.  The class in Server.dfy is
 * proved to behave exactly as these functions say.
 *
 * A websocket is an opaque identifier.  Which sends raise ConnectionClosed
 * is given by the set `dead` of identifiers whose transport has gone away.
 */
module Relay {
  import opened Wrappers
  import opened Protocol

  type ConnId = nat

  /** The value stored per connection in self.players. */
  datatype PlayerRecord = PlayerRecord(name: string, joinedAt: string)

  /** One frame written to one connection. */
  datatype Envelope = Envelope(to: ConnId, msg: ServerMessage)

  /**
   * The server's state.  The dict self.players is split into its keys in
   * insertion order (Python dicts iterate in that order) and the records;
   * playersCount is game_state["players_count"]; outbox holds the frames
   * that were delivered, oldest first.
   */
  datatype ServerState = ServerState(
    order: seq<ConnId>,
    records: map<ConnId, PlayerRecord>,
    playersCount: nat,
    outbox: seq<Envelope>)

  predicate Distinct(xs: seq<ConnId>) {
    forall i, j :: 0 <= i < j < |xs| ==> xs[i] != xs[j]
  }

  /** The key order and the records describe one dict, and the count mirrors its size. */
  ghost predicate Valid(s: ServerState) {
    && Distinct(s.order)
    && (forall id :: id in s.records <==> id in s.order)
    && s.playersCount == |s.records|
  }

  /** A freshly constructed GameServer. */
  const INITIAL := ServerState([], map[], 0, [])

  /**
   * How a state may evolve under broadcasts and unregistrations: the
   * registry only loses entries, surviving records are untouched, the
   * outbox only grows, and every new frame went to a registered,
   * reachable connection.
   */
  ghost predicate Evolves(s: ServerState, r: ServerState, dead: set<ConnId>) {
    && r.records.Keys <= s.records.Keys
    && (forall id :: id in r.records ==> r.records[id] == s.records[id])
    && s.outbox <= r.outbox
    && (forall i :: |s.outbox| <= i < |r.outbox| ==> r.outbox[i].to in s.records && r.outbox[i].to !in dead)
  }

  predicate AllIn(ws: seq<ConnId>, dead: set<ConnId>) {
    forall w :: w in ws ==> w in dead
  }

  /** `del` on the key order: the sequence without `w`. */
  function Without(xs: seq<ConnId>, w: ConnId): (r: seq<ConnId>)
    ensures forall x :: x in r <==> x in xs && x != w
    ensures w !in xs ==> r == xs
    ensures Distinct(xs) ==> Distinct(r)
    ensures |r| <= |xs|
  {
    if xs == [] then []
    else if xs[0] == w then Without(xs[1..], w)
    else
      var rest := Without(xs[1..], w);
      assert Distinct(xs) ==> xs[0] !in xs[1..] && Distinct(xs[1..]);
      assert Distinct(xs) ==> xs[0] !in rest;
      [xs[0]] + rest
  }

  /** `del` keeps the other keys in their insertion order. */
  lemma {:induction false} WithoutKeepsOrder(a: seq<ConnId>, w: ConnId, b: seq<ConnId>)
    requires w !in a && w !in b
    ensures Without(a + [w] + b, w) == a + b
  {
    if a == [] {
      assert a + [w] + b == [w] + b && ([w] + b)[1..] == b;
    } else {
      assert (a + [w] + b)[0] == a[0] && (a + [w] + b)[1..] == a[1..] + [w] + b;
      WithoutKeepsOrder(a[1..], w, b);
      assert a + b == [a[0]] + (a[1..] + b);
    }
  }

  /** One send: delivered unless the connection is dead, whose exception is swallowed. */
  function DeliverTo(id: ConnId, m: ServerMessage, dead: set<ConnId>): seq<Envelope> {
    if id in dead then [] else [Envelope(id, m)]
  }

  /** Sending `m` to each of `ids` in turn. */
  function Fanout(ids: seq<ConnId>, m: ServerMessage, dead: set<ConnId>): seq<Envelope> {
    if ids == [] then []
    else Fanout(ids[..|ids| - 1], m, dead) + DeliverTo(ids[|ids| - 1], m, dead)
  }

  /** The `disconnected` list of broadcast_to_all: the ids whose send raised, in order. */
  function Failed(ids: seq<ConnId>, dead: set<ConnId>): (r: seq<ConnId>)
    ensures forall x :: x in r <==> x in ids && x in dead
    ensures Distinct(ids) ==> Distinct(r)
  {
    if ids == [] then []
    else
      var init := Failed(ids[..|ids| - 1], dead);
      assert forall x :: x in ids <==> x in ids[..|ids| - 1] || x == ids[|ids| - 1];
      if ids[|ids| - 1] in dead then init + [ids[|ids| - 1]] else init
  }

  /** One more iteration of a sending loop over `ids`. */
  lemma FanoutStep(ids: seq<ConnId>, i: nat, m: ServerMessage, dead: set<ConnId>)
    requires i < |ids|
    ensures Fanout(ids[..i + 1], m, dead) == Fanout(ids[..i], m, dead) + DeliverTo(ids[i], m, dead)
    ensures Failed(ids[..i + 1], dead) == Failed(ids[..i], dead) + (if ids[i] in dead then [ids[i]] else [])
  {
    assert ids[..i + 1][..i] == ids[..i];
  }

  /** The messages one connection received from a log, in order. */
  function Received(log: seq<Envelope>, id: ConnId): seq<ServerMessage> {
    if log == [] then []
    else (if log[0].to == id then [log[0].msg] else []) + Received(log[1..], id)
  }

  /**
   * unregister_player: a no-op for an unknown id; otherwise the entry is
   * deleted, the count updated, and "<name> left the game." broadcast.
   */
  function Unregister(s: ServerState, w: ConnId, dead: set<ConnId>): (r: ServerState)
    requires Valid(s)
    ensures Valid(r) && Evolves(s, r, dead)
    ensures w !in s.records ==> r == s
    ensures w in s.records ==> r.records.Keys == s.records.Keys - {w} - dead
    ensures w !in r.records
    ensures |r.records| <= |s.records|
    decreases |s.records|, 0, 0
  {
    if w !in s.records then s
    else
      var name := s.records[w].name;
      var records := s.records - {w};
      var s1 := ServerState(Without(s.order, w), records, |records|, s.outbox);
      BroadcastAll(s1, PlayerLeft(LeftText(name), |records|), dead)
  }

  /** The second loop of broadcast_to_all: unregister every id in `ws`, in order. */
  function Cleanup(s: ServerState, ws: seq<ConnId>, dead: set<ConnId>): (r: ServerState)
    requires Valid(s)
    requires AllIn(ws, dead)
    ensures Valid(r) && Evolves(s, r, dead)
    ensures s.records.Keys - dead <= r.records.Keys
    ensures forall w :: w in ws ==> w !in r.records
    decreases |s.records|, 1, |ws|
  {
    if ws == [] then s
    else Cleanup(Unregister(s, ws[0], dead), ws[1..], dead)
  }

  /**
   * broadcast_to_all: nothing on an empty registry; otherwise every
   * registered id is sent `m` first, then the ids whose send failed are
   * unregistered one by one (each of which broadcasts again).
   */
  function BroadcastAll(s: ServerState, m: ServerMessage, dead: set<ConnId>): (r: ServerState)
    requires Valid(s)
    ensures Valid(r) && Evolves(s, r, dead)
    ensures s.order == [] ==> r == s
    ensures s.order != [] ==> r.records.Keys == s.records.Keys - dead
    ensures s.outbox + Fanout(s.order, m, dead) <= r.outbox
    decreases |s.records|, 2, 0
  {
    if s.order == [] then s
    else
      var sent := s.(outbox := s.outbox + Fanout(s.order, m, dead));
      var r := Cleanup(sent, Failed(s.order, dead), dead);
      FanoutEvolves(s, m, dead);
      EvolvesTrans(s, sent, r, dead);
      r
  }

  /** The two phases of BroadcastAll on a non-empty registry. */
  lemma BroadcastAllPhases(s: ServerState, m: ServerMessage, dead: set<ConnId>)
    requires Valid(s) && s.order != []
    ensures BroadcastAll(s, m, dead)
         == Cleanup(s.(outbox := s.outbox + Fanout(s.order, m, dead)), Failed(s.order, dead), dead)
  {
  }

  /** One step of the cleanup loop. */
  lemma CleanupStep(s: ServerState, ws: seq<ConnId>, dead: set<ConnId>)
    requires Valid(s) && ws != [] && AllIn(ws, dead)
    ensures Cleanup(s, ws, dead) == Cleanup(Unregister(s, ws[0], dead), ws[1..], dead)
  {
  }

  /** A broadcast reaches only the reachable ones among `ids`, with `m`. */
  lemma {:induction false} FanoutTargets(ids: seq<ConnId>, m: ServerMessage, dead: set<ConnId>, k: nat)
    requires k < |Fanout(ids, m, dead)|
    ensures Fanout(ids, m, dead)[k].msg == m
    ensures Fanout(ids, m, dead)[k].to in ids && Fanout(ids, m, dead)[k].to !in dead
  {
    var init := ids[..|ids| - 1];
    var f := Fanout(init, m, dead);
    if k < |f| {
      FanoutTargets(init, m, dead, k);
      assert Fanout(ids, m, dead)[k] == f[k];
    }
  }

  lemma FanoutEvolves(s: ServerState, m: ServerMessage, dead: set<ConnId>)
    requires Valid(s)
    ensures Evolves(s, s.(outbox := s.outbox + Fanout(s.order, m, dead)), dead)
  {
    var f := Fanout(s.order, m, dead);
    forall i | |s.outbox| <= i < |s.outbox| + |f|
      ensures (s.outbox + f)[i].to in s.records && (s.outbox + f)[i].to !in dead
    {
      assert (s.outbox + f)[i] == f[i - |s.outbox|];
      FanoutTargets(s.order, m, dead, i - |s.outbox|);
    }
  }

  lemma EvolvesTrans(a: ServerState, b: ServerState, c: ServerState, dead: set<ConnId>)
    requires Evolves(a, b, dead) && Evolves(b, c, dead)
    ensures Evolves(a, c, dead)
  {
    forall i | |a.outbox| <= i < |c.outbox|
      ensures c.outbox[i].to in a.records && c.outbox[i].to !in dead
    {
      if i < |b.outbox| {
        assert c.outbox[i] == b.outbox[i];
      }
    }
  }

  /**
   * register_player: store the record (an existing key keeps its place),
   * update the count, welcome the new connection and announce it to the
   * others.  Failed sends are swallowed: nobody is removed.
   */
  function Register(s: ServerState, ws: ConnId, name: string, at: string, dead: set<ConnId>): (r: ServerState)
    requires Valid(s)
    ensures Valid(r)
    ensures ws in r.records && r.records[ws] == PlayerRecord(name, at)
    ensures r.records.Keys == s.records.Keys + {ws}
    ensures forall id :: id in s.records && id != ws ==> r.records[id] == s.records[id]
    ensures ws in s.records ==> r.order == s.order && r.playersCount == s.playersCount
    ensures ws !in s.records ==> r.order == s.order + [ws]
    ensures s.outbox <= r.outbox
  {
    var order := if ws in s.records then s.order else s.order + [ws];
    var records := s.records[ws := PlayerRecord(name, at)];
    var n := |records|;
    var announced := DeliverTo(ws, Welcome(WelcomeText(name), n), dead)
                     + Fanout(order, PlayerJoined(JoinedText(name), n), dead + {ws});
    ServerState(order, records, n, s.outbox + announced)
  }

  lemma AppendAssoc<T>(a: seq<T>, b: seq<T>, c: seq<T>)
    ensures (a + b) + c == a + (b + c)
  {
  }

  /** The exceptions handle_player_connection lets escape. */
  datatype Fault =
    | UnregisteredSender        // KeyError on self.players[websocket]
    | MissingField(field: string) // KeyError on message_data[field]
    | NotAnObject               // .get or [] on a JSON value that is not an object

  /**
   * handle_player_message: look up the sender's name, then relay a chat
   * or a game action to everybody, stamped with the sender's registered
   * name and the time `at`.  Other types are ignored.
   */
  function Dispatch(s: ServerState, ws: ConnId, data: JsonObject, at: string, dead: set<ConnId>)
    : (r: Result<ServerState, Fault>)
    requires Valid(s)
    ensures ws !in s.records ==> r == Failure(UnregisteredSender)
    ensures r.Failure? && ws in s.records ==> r.error == MissingField(if TypeOf(data) == "chat" then "message" else "action")
    ensures r.Success? ==> Valid(r.value) && Evolves(s, r.value, dead) && s.records.Keys - dead <= r.value.records.Keys
    ensures ws in s.records && TypeOf(data) == "chat" ==> (r.Failure? <==> "message" !in data)
    ensures ws in s.records && TypeOf(data) == "game_action" ==> (r.Failure? <==> "action" !in data)
    ensures ws in s.records && TypeOf(data) != "chat" && TypeOf(data) != "game_action" ==> r == Success(s)
  {
    if ws !in s.records then Failure(UnregisteredSender)
    else
      var name := s.records[ws].name;
      var kind := TypeOf(data);
      if kind == "chat" then
        if "message" in data then Success(BroadcastAll(s, Chat(name, data["message"], at), dead))
        else Failure(MissingField("message"))
      else if kind == "game_action" then
        if "action" in data then Success(BroadcastAll(s, GameAction(name, data["action"], at), dead))
        else Failure(MissingField("action"))
      else Success(s)
  }

  /** What json.loads made of one received frame. */
  datatype Payload = Undecodable | NotObject | Object(fields: JsonObject)

  /** A received frame and the wall-clock time ("%H:%M:%S") at which it is handled. */
  datatype Frame = Frame(payload: Payload, at: string)

  /** How handle_player_connection ends: it returns, or an exception escapes it. */
  datatype Exit = Returned | Raised(fault: Fault)

  datatype Outcome = Outcome(state: ServerState, exit: Exit)

  /** The join handshake's test: data["type"] == "join" and "name" in data. */
  predicate StartsWithJoin(frames: seq<Frame>) {
    && frames != []
    && frames[0].payload.Object?
    && TypeOf(frames[0].payload.fields) == "join"
    && "name" in frames[0].payload.fields
  }

  /** The relay loop over the frames after the join message. */
  function RelayLoop(s: ServerState, ws: ConnId, frames: seq<Frame>, dead: set<ConnId>): (r: Outcome)
    requires Valid(s)
    ensures Valid(r.state) && Evolves(s, r.state, dead)
    ensures s.records.Keys - dead <= r.state.records.Keys
    ensures r.exit == Raised(NotAnObject) ==> ws in r.state.records
    ensures r.exit == Raised(UnregisteredSender) ==> ws !in r.state.records
    ensures r.exit.Raised? && r.exit.fault.MissingField? ==> r.exit.fault.field in {"message", "action"}
    decreases |frames|
  {
    if frames == [] then Outcome(s, Returned)
    else
      match frames[0].payload
      case Undecodable => RelayLoop(s, ws, frames[1..], dead)
      case NotObject => Outcome(s, Raised(if ws in s.records then NotAnObject else UnregisteredSender))
      case Object(data) =>
        match Dispatch(s, ws, data, frames[0].at, dead)
        case Failure(e) => Outcome(s, Raised(e))
        case Success(t) => RelayLoop(t, ws, frames[1..], dead)
  }

  /** The try block of handle_player_connection: the handshake, then the relay loop. */
  function Serve(s: ServerState, ws: ConnId, frames: seq<Frame>, dead: set<ConnId>): (r: Outcome)
    requires Valid(s)
    ensures Valid(r.state)
    ensures r.state.records.Keys <= s.records.Keys + {ws}
    ensures s.records.Keys - dead <= r.state.records.Keys
    ensures !StartsWithJoin(frames) ==> r.state == s
  {
    if frames == [] then Outcome(s, Returned)
    else
      match frames[0].payload
      case Undecodable => Outcome(s, Returned)
      case NotObject => Outcome(s, Raised(NotAnObject))
      case Object(data) =>
        if "type" !in data then Outcome(s, Raised(MissingField("type")))
        else if data["type"] == "join" && "name" in data then
          RelayLoop(Register(s, ws, data["name"], frames[0].at, dead), ws, frames[1..], dead)
        else Outcome(s, Returned)
  }

  /** handle_player_connection, with its finally clause. */
  function Connection(s: ServerState, ws: ConnId, frames: seq<Frame>, dead: set<ConnId>): (r: Outcome)
    requires Valid(s)
    ensures Valid(r.state) && ws !in r.state.records
    ensures r.state.records.Keys <= s.records.Keys - {ws}
    ensures s.records.Keys - {ws} - dead <= r.state.records.Keys
    ensures !StartsWithJoin(frames) ==> r.state == Unregister(s, ws, dead)
  {
    var o := Serve(s, ws, frames, dead);
    Outcome(Unregister(o.state, ws, dead), o.exit)
  }
}
