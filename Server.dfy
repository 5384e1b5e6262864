/**
 * GameServer of pythonmultiplayergame/server.py as a class whose methods
 * update the registry, the count and the outbox in place.  Each method is
 * proved to leave exactly the state the corresponding function of module
 * Relay computes from the old state.
 */
module Server {
  import opened Wrappers
  import opened Protocol
  import opened Relay

  class GameServer {
    /** The keys of self.players, in insertion order. */
    var order: seq<ConnId>
    /** The values of self.players. */
    var records: map<ConnId, PlayerRecord>
    /** game_state["players_count"]. */
    var playersCount: nat
    /** Every frame written to a connection so far. */
    var outbox: seq<Envelope>

    function State(): ServerState
      reads this
    {
      ServerState(order, records, playersCount, outbox)
    }

    ghost predicate Valid()
      reads this
    {
      Relay.Valid(State())
    }

    constructor ()
      ensures Valid() && State() == INITIAL
    {
      order, records, playersCount, outbox := [], map[], 0, [];
    }

    /** send_to_player: a failed send is swallowed. */
    method SendToPlayer(ws: ConnId, m: ServerMessage, dead: set<ConnId>)
      modifies this`outbox
      ensures outbox == old(outbox) + DeliverTo(ws, m, dead)
    {
      if ws !in dead {
        outbox := outbox + [Envelope(ws, m)];
      }
    }

    /** broadcast_to_others: every registered connection but the sender, in order. */
    method BroadcastToOthers(sender: ConnId, m: ServerMessage, dead: set<ConnId>)
      modifies this`outbox
      ensures outbox == old(outbox) + Fanout(order, m, dead + {sender})
    {
      var i := 0;
      while i < |order|
        invariant 0 <= i <= |order|
        invariant outbox == old(outbox) + Fanout(order[..i], m, dead + {sender})
      {
        FanoutStep(order, i, m, dead + {sender});
        AppendAssoc(old(outbox), Fanout(order[..i], m, dead + {sender}), DeliverTo(order[i], m, dead + {sender}));
        if order[i] != sender {
          assert DeliverTo(order[i], m, dead + {sender}) == DeliverTo(order[i], m, dead);
          SendToPlayer(order[i], m, dead);
        } else {
          assert DeliverTo(order[i], m, dead + {sender}) == [];
        }
        i := i + 1;
      }
      assert order[..|order|] == order;
    }

    /**
     * The first loop of broadcast_to_all: try every registered connection
     * and collect the ones whose send raised.
     */
    method SendToEach(m: ServerMessage, dead: set<ConnId>) returns (disconnected: seq<ConnId>)
      modifies this`outbox
      ensures outbox == old(outbox) + Fanout(order, m, dead)
      ensures disconnected == Failed(order, dead)
    {
      disconnected := [];
      var i := 0;
      while i < |order|
        invariant 0 <= i <= |order|
        invariant outbox == old(outbox) + Fanout(order[..i], m, dead)
        invariant disconnected == Failed(order[..i], dead)
      {
        FanoutStep(order, i, m, dead);
        AppendAssoc(old(outbox), Fanout(order[..i], m, dead), DeliverTo(order[i], m, dead));
        var ws := order[i];
        if ws in dead {
          disconnected := disconnected + [ws];
        } else {
          outbox := outbox + [Envelope(ws, m)];
        }
        i := i + 1;
      }
      assert order[..|order|] == order;
    }

    /** broadcast_to_all: send to everybody, then unregister whoever failed. */
    method BroadcastToAll(m: ServerMessage, dead: set<ConnId>)
      requires Valid()
      modifies this
      ensures State() == BroadcastAll(old(State()), m, dead)
      decreases |records|, 1
    {
      if order != [] {
        var disconnected := SendToEach(m, dead);
        ghost var sent := old(State()).(outbox := old(outbox) + Fanout(old(order), m, dead));
        assert State() == sent;
        BroadcastAllPhases(old(State()), m, dead);
        ghost var target := BroadcastAll(old(State()), m, dead);
        assert disconnected[0..] == disconnected;
        assert Cleanup(State(), disconnected[0..], dead) == target;
        var j := 0;
        while j < |disconnected|
          invariant 0 <= j <= |disconnected|
          invariant Valid() && |records| <= old(|records|)
          invariant AllIn(disconnected[j..], dead)
          invariant Cleanup(State(), disconnected[j..], dead) == target
        {
          assert disconnected[j..][1..] == disconnected[j + 1..];
          assert AllIn(disconnected[j + 1..], dead);
          ghost var before := State();
          CleanupStep(before, disconnected[j..], dead);
          UnregisterPlayer(disconnected[j], dead);
          assert State() == Unregister(before, disconnected[j], dead);
          j := j + 1;
        }
      }
    }

    /** unregister_player. */
    method UnregisterPlayer(ws: ConnId, dead: set<ConnId>)
      requires Valid()
      modifies this
      ensures State() == Unregister(old(State()), ws, dead)
      decreases |records|, 0
    {
      if ws in records {
        var name := records[ws].name;
        order := Without(order, ws);
        records := records - {ws};
        playersCount := |records|;
        BroadcastToAll(PlayerLeft(LeftText(name), |records|), dead);
      }
    }

    /** register_player. */
    method RegisterPlayer(ws: ConnId, name: string, at: string, dead: set<ConnId>)
      requires Valid()
      modifies this
      ensures State() == Register(old(State()), ws, name, at, dead)
    {
      if ws !in records {
        order := order + [ws];
      }
      records := records[ws := PlayerRecord(name, at)];
      playersCount := |records|;
      ghost var before := outbox;
      SendToPlayer(ws, Welcome(WelcomeText(name), |records|), dead);
      BroadcastToOthers(ws, PlayerJoined(JoinedText(name), |records|), dead);
      AppendAssoc(before, DeliverTo(ws, Welcome(WelcomeText(name), |records|), dead),
                  Fanout(order, PlayerJoined(JoinedText(name), |records|), dead + {ws}));
    }

    /** handle_player_message; a KeyError it raises is returned as `fault`. */
    method HandlePlayerMessage(ws: ConnId, data: JsonObject, at: string, dead: set<ConnId>)
      returns (fault: Option<Fault>)
      requires Valid()
      modifies this
      ensures fault.None? ==> Dispatch(old(State()), ws, data, at, dead) == Success(State())
      ensures fault.Some? ==> Dispatch(old(State()), ws, data, at, dead) == Failure(fault.value)
      ensures fault.Some? ==> State() == old(State())
    {
      if ws !in records {
        return Some(UnregisteredSender);
      }
      var name := records[ws].name;
      var kind := TypeOf(data);
      if kind == "chat" {
        if "message" !in data {
          return Some(MissingField("message"));
        }
        BroadcastToAll(Chat(name, data["message"], at), dead);
      } else if kind == "game_action" {
        if "action" !in data {
          return Some(MissingField("action"));
        }
        BroadcastToAll(GameAction(name, data["action"], at), dead);
      }
      fault := None;
    }

    /**
     * The `async for` loop of handle_player_connection: undecodable frames
     * are skipped, and the first exception ends the loop.
     */
    method RelayMessages(ws: ConnId, frames: seq<Frame>, dead: set<ConnId>) returns (exit: Exit)
      requires Valid()
      modifies this
      ensures Outcome(State(), exit) == RelayLoop(old(State()), ws, frames, dead)
    {
      exit := Returned;
      var i := 0;
      while i < |frames|
        invariant 0 <= i <= |frames|
        invariant Valid() && exit == Returned
        invariant RelayLoop(State(), ws, frames[i..], dead) == RelayLoop(old(State()), ws, frames, dead)
      {
        assert frames[i..][0] == frames[i] && frames[i..][1..] == frames[i + 1..];
        ghost var before := State();
        match frames[i].payload {
          case Undecodable =>
            assert RelayLoop(before, ws, frames[i..], dead) == RelayLoop(before, ws, frames[i + 1..], dead);
          case NotObject =>
            exit := Raised(if ws in records then NotAnObject else UnregisteredSender);
            assert RelayLoop(before, ws, frames[i..], dead) == Outcome(before, exit);
            return;
          case Object(data) =>
            var fault := HandlePlayerMessage(ws, data, frames[i].at, dead);
            if fault.Some? {
              exit := Raised(fault.value);
              assert RelayLoop(before, ws, frames[i..], dead) == Outcome(before, exit);
              return;
            }
            assert RelayLoop(before, ws, frames[i..], dead) == RelayLoop(State(), ws, frames[i + 1..], dead);
        }
        i := i + 1;
      }
    }

    /** handle_player_connection over the frames the connection delivers. */
    method HandlePlayerConnection(ws: ConnId, frames: seq<Frame>, dead: set<ConnId>)
      returns (exit: Exit)
      requires Valid()
      modifies this
      ensures Outcome(State(), exit) == Connection(old(State()), ws, frames, dead)
    {
      exit := Returned;
      if frames != [] {
        match frames[0].payload {
          case Undecodable =>
          case NotObject =>
            exit := Raised(NotAnObject);
          case Object(join) =>
            if "type" !in join {
              exit := Raised(MissingField("type"));
            } else if join["type"] == "join" && "name" in join {
              RegisterPlayer(ws, join["name"], frames[0].at, dead);
              exit := RelayMessages(ws, frames[1..], dead);
            }
        }
      }
      assert Outcome(State(), exit) == Serve(old(State()), ws, frames, dead);
      UnregisterPlayer(ws, dead);
    }
  }
}
