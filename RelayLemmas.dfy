/**
 * Properties of the relay server model: who receives what from a
 * registration, a broadcast and an unregistration, how failed connections
 * are cleaned up, and what a connection's lifecycle leaves behind.
 */
module RelayLemmas {
  import opened Wrappers
  import opened Protocol
  import opened Relay

  /** The frames appended to the outbox between two states. */
  function NewFrames(s: ServerState, r: ServerState): seq<Envelope>
    requires |s.outbox| <= |r.outbox|
  {
    r.outbox[|s.outbox|..]
  }

  lemma {:induction false} ReceivedAppend(a: seq<Envelope>, b: seq<Envelope>, id: ConnId)
    ensures Received(a + b, id) == Received(a, id) + Received(b, id)
  {
    if a == [] {
      assert a + b == b;
    } else {
      var head := if a[0].to == id then [a[0].msg] else [];
      assert (a + b)[0] == a[0];
      assert (a + b)[1..] == a[1..] + b;
      ReceivedAppend(a[1..], b, id);
      AppendAssoc(head, Received(a[1..], id), Received(b, id));
    }
  }

  lemma {:induction false} ReceivedNone(log: seq<Envelope>, id: ConnId)
    requires forall i :: 0 <= i < |log| ==> log[i].to != id
    ensures Received(log, id) == []
  {
    if log != [] {
      assert forall i :: 0 <= i < |log[1..]| ==> log[1..][i] == log[i + 1];
      ReceivedNone(log[1..], id);
    }
  }

  lemma ReceivedSingle(e: Envelope, id: ConnId)
    ensures Received([e], id) == if e.to == id then [e.msg] else []
  {
    assert [e][1..] == [];
  }

  /** Over distinct ids, a fan-out gives each reachable id the message exactly once. */
  lemma {:induction false} ReceivedFanout(ids: seq<ConnId>, m: ServerMessage, dead: set<ConnId>, x: ConnId)
    requires Distinct(ids)
    ensures Received(Fanout(ids, m, dead), x) == if x in ids && x !in dead then [m] else []
  {
    if ids != [] {
      var init, last := ids[..|ids| - 1], ids[|ids| - 1];
      DistinctSplit(ids);
      ReceivedFanout(init, m, dead, x);
      ReceivedAppend(Fanout(init, m, dead), DeliverTo(last, m, dead), x);
      if last !in dead {
        ReceivedSingle(Envelope(last, m), x);
      }
    }
  }

  /** Dropping the last of distinct ids leaves distinct ids without it. */
  lemma DistinctSplit(ids: seq<ConnId>)
    requires Distinct(ids) && ids != []
    ensures Distinct(ids[..|ids| - 1]) && ids[|ids| - 1] !in ids[..|ids| - 1]
    ensures forall x :: x in ids <==> x in ids[..|ids| - 1] || x == ids[|ids| - 1]
  {
    assert ids == ids[..|ids| - 1] + [ids[|ids| - 1]];
  }

  /** The set of ids occurring in `xs`. */
  function Elements(xs: seq<ConnId>): (r: set<ConnId>)
    ensures forall x :: x in r <==> x in xs
  {
    if xs == [] then {}
    else
      var init := xs[..|xs| - 1];
      assert forall x :: x in xs <==> x in init || x == xs[|xs| - 1];
      Elements(init) + {xs[|xs| - 1]}
  }

  lemma {:induction false} DistinctCard(xs: seq<ConnId>)
    requires Distinct(xs)
    ensures |Elements(xs)| == |xs|
  {
    if xs != [] {
      var init := xs[..|xs| - 1];
      assert Distinct(init);
      DistinctCard(init);
      assert xs[|xs| - 1] !in init;
    }
  }

  /** The key order and the records always have the same size. */
  lemma CountMatchesOrder(s: ServerState)
    requires Valid(s)
    ensures s.playersCount == |s.order|
  {
    DistinctCard(s.order);
    assert s.records.Keys == Elements(s.order);
  }

  /**
   * register_player's announcements: the new connection gets one welcome
   * carrying the new size, every other registered and reachable
   * connection gets one player_joined with the same size, and the new
   * connection never hears of its own arrival.
   */
  lemma RegisterAnnouncements(s: ServerState, ws: ConnId, name: string, at: string, dead: set<ConnId>, x: ConnId)
    requires Valid(s)
    ensures var r := Register(s, ws, name, at, dead);
      && |r.records| == |s.records| + (if ws in s.records then 0 else 1)
      && r.playersCount == |r.records|
      && Received(NewFrames(s, r), x)
         == if x == ws then
              (if ws in dead then [] else [Welcome(WelcomeText(name), |r.records|)])
            else if x in r.records && x !in dead then
              [PlayerJoined(JoinedText(name), |r.records|)]
            else []
  {
    var r := Register(s, ws, name, at, dead);
    RegisterFrames(s, ws, name, at, dead);
    WelcomeThenJoined(NewFrames(s, r), r.order, ws, Welcome(WelcomeText(name), |r.records|),
                      PlayerJoined(JoinedText(name), |r.records|), dead, x);
  }

  /** The frames register_player sends: the welcome, then one player_joined pass skipping the new connection. */
  lemma RegisterFrames(s: ServerState, ws: ConnId, name: string, at: string, dead: set<ConnId>)
    requires Valid(s)
    ensures var r := Register(s, ws, name, at, dead);
      NewFrames(s, r) == DeliverTo(ws, Welcome(WelcomeText(name), |r.records|), dead)
                         + Fanout(r.order, PlayerJoined(JoinedText(name), |r.records|), dead + {ws})
  {
    var r := Register(s, ws, name, at, dead);
    assert r.records == s.records[ws := PlayerRecord(name, at)];
    assert r.order == if ws in s.records then s.order else s.order + [ws];
    var sent := DeliverTo(ws, Welcome(WelcomeText(name), |r.records|), dead)
                + Fanout(r.order, PlayerJoined(JoinedText(name), |r.records|), dead + {ws});
    assert r.outbox == s.outbox + sent;
    DropPrefix(s.outbox, sent);
  }

  lemma DropPrefix(a: seq<Envelope>, b: seq<Envelope>)
    ensures (a + b)[|a|..] == b
  {
  }

  lemma WelcomeThenJoined(frames: seq<Envelope>, order: seq<ConnId>, ws: ConnId, welcome: ServerMessage,
                          joined: ServerMessage, dead: set<ConnId>, x: ConnId)
    requires Distinct(order)
    requires frames == DeliverTo(ws, welcome, dead) + Fanout(order, joined, dead + {ws})
    ensures Received(frames, x)
         == if x == ws then (if ws in dead then [] else [welcome])
            else if x in order && x !in dead then [joined]
            else []
  {
    ReceivedAppend(DeliverTo(ws, welcome, dead), Fanout(order, joined, dead + {ws}), x);
    ReceivedFanout(order, joined, dead + {ws}, x);
    if ws !in dead {
      ReceivedSingle(Envelope(ws, welcome), x);
    }
  }

  /** With every registered connection reachable, a broadcast is exactly one pass of sends. */
  lemma BroadcastNoFailures(s: ServerState, m: ServerMessage, dead: set<ConnId>)
    requires Valid(s)
    requires s.records.Keys * dead == {}
    ensures BroadcastAll(s, m, dead) == s.(outbox := s.outbox + Fanout(s.order, m, dead))
  {
    if s.order != [] {
    } else {
      assert s.(outbox := s.outbox + []) == s;
    }
  }

  /** ... and then every registered connection, and nobody else, receives the message once. */
  lemma BroadcastReachesEveryone(s: ServerState, m: ServerMessage, dead: set<ConnId>, x: ConnId)
    requires Valid(s)
    requires s.records.Keys * dead == {}
    ensures var r := BroadcastAll(s, m, dead);
      && r.records == s.records
      && Received(NewFrames(s, r), x) == if x in s.records then [m] else []
  {
    BroadcastNoFailures(s, m, dead);
    var r := BroadcastAll(s, m, dead);
    assert NewFrames(s, r) == Fanout(s.order, m, dead);
    ReceivedFanout(s.order, m, dead, x);
  }

  lemma PrefixSplit(a: seq<Envelope>, b: seq<Envelope>, c: seq<Envelope>)
    requires a + b <= c
    ensures b <= c[|a|..]
  {
    assert forall i :: 0 <= i < |b| ==> c[|a|..][i] == (a + b)[|a| + i];
  }

  /** Every frame an evolution adds goes to a connection that was registered and reachable. */
  lemma NewFramesTargets(s: ServerState, r: ServerState, dead: set<ConnId>)
    requires Evolves(s, r, dead)
    ensures forall i :: 0 <= i < |NewFrames(s, r)| ==> NewFrames(s, r)[i].to in s.records && NewFrames(s, r)[i].to !in dead
  {
    forall i | 0 <= i < |NewFrames(s, r)|
      ensures NewFrames(s, r)[i].to in s.records && NewFrames(s, r)[i].to !in dead
    {
      assert NewFrames(s, r)[i] == r.outbox[|s.outbox| + i];
    }
  }

  /** The new frames of an evolution that begins with `f`: `f`, then frames to live registered ids. */
  lemma SplitAfter(s: ServerState, r: ServerState, f: seq<Envelope>, dead: set<ConnId>) returns (rest: seq<Envelope>)
    requires Evolves(s, r, dead) && s.outbox + f <= r.outbox
    ensures NewFrames(s, r) == f + rest
    ensures forall i :: 0 <= i < |rest| ==> rest[i].to in s.records && rest[i].to !in dead
  {
    var nf := NewFrames(s, r);
    PrefixSplit(s.outbox, f, r.outbox);
    rest := nf[|f|..];
    assert nf == f + rest;
    NewFramesTargets(s, r, dead);
    forall i | 0 <= i < |rest| ensures rest[i].to in s.records && rest[i].to !in dead {
      assert rest[i] == nf[|f| + i];
    }
  }

  /** In every broadcast, whatever fails, a dead or unregistered connection receives nothing. */
  lemma BroadcastSkipsDead(s: ServerState, m: ServerMessage, dead: set<ConnId>, x: ConnId)
    requires Valid(s)
    requires x in dead || x !in s.records
    ensures Received(NewFrames(s, BroadcastAll(s, m, dead)), x) == []
  {
    var rest := SplitAfter(s, BroadcastAll(s, m, dead), Fanout(s.order, m, dead), dead);
    ReceivedAppend(Fanout(s.order, m, dead), rest, x);
    ReceivedFanout(s.order, m, dead, x);
    ReceivedNone(rest, x);
  }

  /**
   * ... and, whatever fails, a registered reachable connection receives `m`
   * once, first, followed only by departure announcements of the cleanup.
   */
  lemma BroadcastFirstPass(s: ServerState, m: ServerMessage, dead: set<ConnId>, x: ConnId)
    requires Valid(s)
    requires x !in dead && x in s.records
    ensures var got := Received(NewFrames(s, BroadcastAll(s, m, dead)), x);
      |got| >= 1 && got[0] == m && forall k :: 1 <= k < |got| ==> got[k].PlayerLeft?
  {
    var sent := s.(outbox := s.outbox + Fanout(s.order, m, dead));
    var r := BroadcastAll(s, m, dead);
    BroadcastCleanupOnlyLeft(s, m, dead);
    ReceivedThrough(s, sent, r, Fanout(s.order, m, dead), x);
    ReceivedFanout(s.order, m, dead, x);
    ReceivedOnlyLeft(NewFrames(sent, r), x);
  }

  /** Each send of a broadcast either delivers one frame or puts its connection on the failed list. */
  lemma {:induction false} FanoutCount(ids: seq<ConnId>, m: ServerMessage, dead: set<ConnId>)
    ensures |Fanout(ids, m, dead)| + |Failed(ids, dead)| == |ids|
  {
    if ids != [] {
      FanoutCount(ids[..|ids| - 1], m, dead);
    }
  }

  /** Every frame in `f` is a departure announcement. */
  ghost predicate OnlyLeft(f: seq<Envelope>) {
    forall i :: 0 <= i < |f| ==> f[i].msg.PlayerLeft?
  }

  lemma OnlyLeftAppend(f: seq<Envelope>, g: seq<Envelope>)
    requires OnlyLeft(f) && OnlyLeft(g)
    ensures OnlyLeft(f + g)
  {
    forall i | 0 <= i < |f + g| ensures (f + g)[i].msg.PlayerLeft? {
      if i >= |f| {
        assert (f + g)[i] == g[i - |f|];
      }
    }
  }

  lemma NewFramesThrough(a: ServerState, b: ServerState, c: ServerState)
    requires a.outbox <= b.outbox && b.outbox <= c.outbox
    ensures NewFrames(a, c) == NewFrames(a, b) + NewFrames(b, c)
  {
  }

  lemma {:induction false} ReceivedOnlyLeft(f: seq<Envelope>, x: ConnId)
    requires OnlyLeft(f)
    ensures forall k :: 0 <= k < |Received(f, x)| ==> Received(f, x)[k].PlayerLeft?
  {
    if f != [] {
      assert OnlyLeft(f[1..]) by {
        forall i | 0 <= i < |f[1..]| ensures f[1..][i].msg.PlayerLeft? {
          assert f[1..][i] == f[i + 1];
        }
      }
      ReceivedOnlyLeft(f[1..], x);
    }
  }

  /** unregister_player sends nothing but departure announcements, however many cleanups it triggers. */
  lemma UnregisterOnlyLeft(s: ServerState, w: ConnId, dead: set<ConnId>)
    requires Valid(s)
    ensures OnlyLeft(NewFrames(s, Unregister(s, w, dead)))
    decreases |s.records|, 0, 0
  {
    if w in s.records {
      var records := s.records - {w};
      var left := PlayerLeft(LeftText(s.records[w].name), |records|);
      var s1 := ServerState(Without(s.order, w), records, |records|, s.outbox);
      assert Unregister(s, w, dead) == BroadcastAll(s1, left, dead);
      BroadcastOnlyLeft(s1, left, dead);
    }
  }

  /** The cleanup loop of broadcast_to_all sends nothing but departure announcements. */
  lemma CleanupOnlyLeft(s: ServerState, ws: seq<ConnId>, dead: set<ConnId>)
    requires Valid(s) && AllIn(ws, dead)
    ensures OnlyLeft(NewFrames(s, Cleanup(s, ws, dead)))
    decreases |s.records|, 1, |ws|
  {
    if ws != [] {
      var t := Unregister(s, ws[0], dead);
      CleanupStep(s, ws, dead);
      UnregisterOnlyLeft(s, ws[0], dead);
      assert AllIn(ws[1..], dead);
      CleanupOnlyLeft(t, ws[1..], dead);
      NewFramesThrough(s, t, Cleanup(s, ws, dead));
      OnlyLeftAppend(NewFrames(s, t), NewFrames(t, Cleanup(s, ws, dead)));
    }
  }

  /** After the first pass of broadcast_to_all, only departure announcements follow. */
  lemma BroadcastCleanupOnlyLeft(s: ServerState, m: ServerMessage, dead: set<ConnId>)
    requires Valid(s)
    ensures var sent := s.(outbox := s.outbox + Fanout(s.order, m, dead));
      OnlyLeft(NewFrames(sent, BroadcastAll(s, m, dead)))
    decreases |s.records|, 2, 0
  {
    if s.order != [] {
      BroadcastAllPhases(s, m, dead);
      CleanupOnlyLeft(s.(outbox := s.outbox + Fanout(s.order, m, dead)), Failed(s.order, dead), dead);
    }
  }

  /** A broadcast of a departure announcement sends nothing else. */
  lemma BroadcastOnlyLeft(s: ServerState, m: ServerMessage, dead: set<ConnId>)
    requires Valid(s) && m.PlayerLeft?
    ensures OnlyLeft(NewFrames(s, BroadcastAll(s, m, dead)))
    decreases |s.records|, 2, 1
  {
    var f := Fanout(s.order, m, dead);
    var sent := s.(outbox := s.outbox + f);
    var r := BroadcastAll(s, m, dead);
    BroadcastCleanupOnlyLeft(s, m, dead);
    FanoutOnlyLeft(s.order, m, dead);
    FramesAfter(s, sent, r, f);
    OnlyLeftAppend(f, NewFrames(sent, r));
  }

  lemma FanoutOnlyLeft(ids: seq<ConnId>, m: ServerMessage, dead: set<ConnId>)
    requires m.PlayerLeft?
    ensures OnlyLeft(Fanout(ids, m, dead))
  {
    var f := Fanout(ids, m, dead);
    forall k | 0 <= k < |f| ensures f[k].msg.PlayerLeft? {
      FanoutTargets(ids, m, dead, k);
    }
  }

  lemma FramesAfter(a: ServerState, b: ServerState, c: ServerState, f: seq<Envelope>)
    requires b.outbox == a.outbox + f && b.outbox <= c.outbox
    ensures NewFrames(a, c) == f + NewFrames(b, c)
  {
  }

  lemma {:induction false} OnlyElement(r: seq<ConnId>, w: ConnId)
    requires Distinct(r)
    requires forall x :: x in r <==> x == w
    ensures r == [w]
  {
    DistinctCard(r);
    assert Elements(r) == {w};
  }

  /** With exactly one registered connection dead, that one is all broadcast_to_all collects. */
  lemma FailedSingle(s: ServerState, dead: set<ConnId>, w: ConnId)
    requires Valid(s)
    requires w in s.records && w in dead
    requires s.records.Keys * dead <= {w}
    ensures Failed(s.order, dead) == [w]
  {
    var failed := Failed(s.order, dead);
    forall x ensures x in failed <==> x == w {
      if x in failed {
        assert x in s.records.Keys * dead;
      }
    }
    OnlyElement(failed, w);
  }

  /** Cleaning up a single failed connection is one unregistration. */
  lemma CleanupSingle(s: ServerState, w: ConnId, dead: set<ConnId>)
    requires Valid(s) && w in dead
    ensures Cleanup(s, [w], dead) == Unregister(s, w, dead)
  {
    assert AllIn([w], dead);
    CleanupStep(s, [w], dead);
    assert [w][1..] == [];
  }

  /** With one failed registered connection, the cleanup is one unregistration on the state after the first pass. */
  lemma SingleFailureCleanup(s: ServerState, m: ServerMessage, dead: set<ConnId>, w: ConnId)
    requires Valid(s)
    requires w in s.records && w in dead
    requires s.records.Keys * dead <= {w}
    ensures BroadcastAll(s, m, dead) == Unregister(s.(outbox := s.outbox + Fanout(s.order, m, dead)), w, dead)
  {
    FailedSingle(s, dead, w);
    BroadcastAllPhases(s, m, dead);
    CleanupSingle(s.(outbox := s.outbox + Fanout(s.order, m, dead)), w, dead);
  }

  /**
   * A broadcast during which exactly one registered connection is dead:
   * that connection is removed, it receives nothing, and every other
   * registered connection receives the message and then one player_left
   * naming the removed player with the new count.
   */
  lemma BroadcastSingleFailure(s: ServerState, m: ServerMessage, dead: set<ConnId>, w: ConnId, x: ConnId)
    requires Valid(s)
    requires w in s.records && w in dead
    requires s.records.Keys * dead <= {w}
    ensures BroadcastAll(s, m, dead).records == s.records - {w}
    ensures BroadcastAll(s, m, dead).playersCount == |s.records| - 1
    ensures Received(NewFrames(s, BroadcastAll(s, m, dead)), x)
         == if x in s.records && x != w then [m, PlayerLeft(LeftText(s.records[w].name), |s.records| - 1)] else []
  {
    var sent := s.(outbox := s.outbox + Fanout(s.order, m, dead));
    SingleFailureCleanup(s, m, dead, w);
    UnregisterAnnounces(sent, w, dead, x);
    TwoRounds(s, sent, Unregister(sent, w, dead), m, PlayerLeft(LeftText(s.records[w].name), |s.records| - 1), dead, w, x);
  }

  /** The receipts of a first pass with `m` followed by an unregistration of `w` announcing `left`. */
  lemma TwoRounds(s: ServerState, sent: ServerState, r: ServerState, m: ServerMessage, left: ServerMessage,
                  dead: set<ConnId>, w: ConnId, x: ConnId)
    requires Valid(s) && w in dead
    requires sent.outbox == s.outbox + Fanout(s.order, m, dead) && sent.outbox <= r.outbox
    requires r.records == s.records - {w} && s.records.Keys * dead <= {w}
    requires Received(NewFrames(sent, r), x) == if x in r.records then [left] else []
    ensures Received(NewFrames(s, r), x) == if x in s.records && x != w then [m, left] else []
  {
    var f := Fanout(s.order, m, dead);
    ReceivedThrough(s, sent, r, f, x);
    ReceivedFanout(s.order, m, dead, x);
    SurvivorIff(s, r, dead, w, x);
    assert [m] + [left] == [m, left];
  }

  /** After a pass in which only `w` failed and its removal, the survivors are the registered, reachable ids. */
  lemma SurvivorIff(s: ServerState, r: ServerState, dead: set<ConnId>, w: ConnId, x: ConnId)
    requires Valid(s) && w in dead
    requires r.records == s.records - {w} && s.records.Keys * dead <= {w}
    ensures (x in s.order && x !in dead) == (x in s.records && x != w) == (x in r.records)
  {
    assert x in s.records && x in dead ==> x in s.records.Keys * dead;
  }

  /** What `x` receives across two consecutive evolutions, the first of which appends `f`. */
  lemma ReceivedThrough(a: ServerState, b: ServerState, c: ServerState, f: seq<Envelope>, x: ConnId)
    requires b.outbox == a.outbox + f && b.outbox <= c.outbox
    ensures Received(NewFrames(a, c), x) == Received(f, x) + Received(NewFrames(b, c), x)
  {
    FramesAfter(a, b, c, f);
    ReceivedAppend(f, NewFrames(b, c), x);
  }

  /** unregister_player on an unknown connection changes nothing, so unregistering twice is unregistering once. */
  lemma UnregisterIdempotent(s: ServerState, w: ConnId, dead: set<ConnId>)
    requires Valid(s)
    ensures Unregister(Unregister(s, w, dead), w, dead) == Unregister(s, w, dead)
  {
  }

  /**
   * unregister_player on a registered connection, all others reachable:
   * exactly that entry goes, the count drops by one, and each remaining
   * player hears "<name> left the game." once with the new count.
   */
  lemma UnregisterAnnounces(s: ServerState, w: ConnId, dead: set<ConnId>, x: ConnId)
    requires Valid(s) && w in s.records
    requires s.records.Keys * dead <= {w}
    ensures var r := Unregister(s, w, dead);
      && r.records == s.records - {w}
      && r.playersCount == |s.records| - 1
      && Received(NewFrames(s, r), x)
         == if x in r.records then [PlayerLeft(LeftText(s.records[w].name), r.playersCount)] else []
  {
    var records := s.records - {w};
    var left := PlayerLeft(LeftText(s.records[w].name), |records|);
    var s1 := ServerState(Without(s.order, w), records, |records|, s.outbox);
    BroadcastReachesEveryone(s1, left, dead, x);
  }

  /** handle_player_message on a well-formed chat or game action from a registered sender is one broadcast. */
  lemma DispatchBroadcasts(s: ServerState, ws: ConnId, data: JsonObject, at: string, dead: set<ConnId>)
    requires Valid(s) && ws in s.records
    ensures TypeOf(data) == "chat" && "message" in data ==>
      Dispatch(s, ws, data, at, dead) == Success(BroadcastAll(s, Chat(s.records[ws].name, data["message"], at), dead))
    ensures TypeOf(data) == "game_action" && "action" in data ==>
      Dispatch(s, ws, data, at, dead) == Success(BroadcastAll(s, GameAction(s.records[ws].name, data["action"], at), dead))
  {
  }

  /**
   * What one broadcast_to_all delivers to a connection `x`: a registered
   * connection that can be reached gets `m` first and then only departure
   * announcements; a dead or unknown one gets nothing; and when no send
   * fails, every registered connection gets exactly `m`.
   */
  lemma BroadcastDelivers(s: ServerState, m: ServerMessage, dead: set<ConnId>, x: ConnId)
    requires Valid(s)
    ensures var got := Received(NewFrames(s, BroadcastAll(s, m, dead)), x);
      && (x in s.records && x !in dead ==>
            |got| >= 1 && got[0] == m && forall k :: 1 <= k < |got| ==> got[k].PlayerLeft?)
      && (x !in s.records || x in dead ==> got == [])
      && (s.records.Keys * dead == {} ==> got == if x in s.records then [m] else [])
  {
    if x in s.records && x !in dead {
      BroadcastFirstPass(s, m, dead, x);
    } else {
      BroadcastSkipsDead(s, m, dead, x);
    }
    if s.records.Keys * dead == {} {
      BroadcastReachesEveryone(s, m, dead, x);
    }
  }

  /**
   * handle_player_message relays a chat to everybody reachable, the sender
   * included, stamped with the sender's registered name; the connections
   * whose send fails are dropped, and all they cause is departure
   * announcements after the chat.
   */
  lemma ChatReachesEveryone(s: ServerState, ws: ConnId, data: JsonObject, at: string, dead: set<ConnId>, x: ConnId)
    requires Valid(s) && ws in s.records
    requires TypeOf(data) == "chat" && "message" in data
    ensures var r := Dispatch(s, ws, data, at, dead);
      && r.Success?
      && r.value.records.Keys == s.records.Keys - dead
      && (s.records.Keys * dead == {} ==> r.value.records == s.records)
      && var chat := Chat(s.records[ws].name, data["message"], at);
         var got := Received(NewFrames(s, r.value), x);
         && (x in s.records && x !in dead ==>
               |got| >= 1 && got[0] == chat && forall k :: 1 <= k < |got| ==> got[k].PlayerLeft?)
         && (x !in s.records || x in dead ==> got == [])
         && (s.records.Keys * dead == {} ==> got == if x in s.records then [chat] else [])
  {
    var chat := Chat(s.records[ws].name, data["message"], at);
    DispatchBroadcasts(s, ws, data, at, dead);
    BroadcastDelivers(s, chat, dead, x);
    if s.records.Keys * dead == {} {
      BroadcastReachesEveryone(s, chat, dead, x);
    }
  }

  /** The same for a game action. */
  lemma ActionReachesEveryone(s: ServerState, ws: ConnId, data: JsonObject, at: string, dead: set<ConnId>, x: ConnId)
    requires Valid(s) && ws in s.records
    requires TypeOf(data) == "game_action" && "action" in data
    ensures var r := Dispatch(s, ws, data, at, dead);
      && r.Success?
      && r.value.records.Keys == s.records.Keys - dead
      && (s.records.Keys * dead == {} ==> r.value.records == s.records)
      && var act := GameAction(s.records[ws].name, data["action"], at);
         var got := Received(NewFrames(s, r.value), x);
         && (x in s.records && x !in dead ==>
               |got| >= 1 && got[0] == act && forall k :: 1 <= k < |got| ==> got[k].PlayerLeft?)
         && (x !in s.records || x in dead ==> got == [])
         && (s.records.Keys * dead == {} ==> got == if x in s.records then [act] else [])
  {
    var act := GameAction(s.records[ws].name, data["action"], at);
    DispatchBroadcasts(s, ws, data, at, dead);
    BroadcastDelivers(s, act, dead, x);
    if s.records.Keys * dead == {} {
      BroadcastReachesEveryone(s, act, dead, x);
    }
  }

  /** An undecodable frame in the relay loop is skipped: the loop goes on as if it had not arrived. */
  lemma {:induction false} UndecodableSkipped(s: ServerState, ws: ConnId, before: seq<Frame>, at: string, after: seq<Frame>, dead: set<ConnId>)
    requires Valid(s)
    ensures RelayLoop(s, ws, before + [Frame(Undecodable, at)] + after, dead) == RelayLoop(s, ws, before + after, dead)
    decreases |before|
  {
    var frames := before + [Frame(Undecodable, at)] + after;
    if before == [] {
      assert frames[1..] == after;
      assert before + after == after;
    } else {
      assert frames[0] == before[0] && (before + after)[0] == before[0];
      assert frames[1..] == before[1..] + [Frame(Undecodable, at)] + after;
      assert (before + after)[1..] == before[1..] + after;
      match before[0].payload
      case Undecodable =>
        UndecodableSkipped(s, ws, before[1..], at, after, dead);
      case NotObject =>
      case Object(data) =>
        match Dispatch(s, ws, data, before[0].at, dead)
        case Failure(e) =>
        case Success(t) =>
          UndecodableSkipped(t, ws, before[1..], at, after, dead);
    }
  }

  /** A connection whose first frame is not a join is never registered and leaves the server as it was. */
  lemma NoJoinNoEffect(s: ServerState, ws: ConnId, frames: seq<Frame>, dead: set<ConnId>)
    requires Valid(s) && ws !in s.records
    requires !StartsWithJoin(frames)
    ensures Connection(s, ws, frames, dead).state == s
  {
  }

  /** The handshake accepts an empty name. */
  lemma EmptyNameAccepted(s: ServerState, ws: ConnId, at: string, dead: set<ConnId>)
    requires Valid(s)
    ensures var r := Serve(s, ws, [Frame(Object(map["type" := "join", "name" := ""]), at)], dead);
      ws in r.state.records && r.state.records[ws] == PlayerRecord("", at) && r.exit == Returned
  {
    var frames := [Frame(Object(map["type" := "join", "name" := ""]), at)];
    assert frames[1..] == [];
  }

  /**
   * A chat frame without "message", or a game action without "action",
   * raises KeyError out of the relay loop; the finally clause still
   * unregisters the connection.
   */
  lemma MissingFieldRaises(s: ServerState, ws: ConnId, frames: seq<Frame>, dead: set<ConnId>, field: string)
    requires Valid(s)
    requires |frames| >= 2 && StartsWithJoin(frames) && frames[1].payload.Object?
    requires var data := frames[1].payload.fields;
      || (TypeOf(data) == "chat" && field == "message")
      || (TypeOf(data) == "game_action" && field == "action")
    requires field !in frames[1].payload.fields
    ensures var r := Connection(s, ws, frames, dead);
      r.exit == Raised(MissingField(field)) && ws !in r.state.records
  {
    var join := frames[0].payload.fields;
    var reg := Register(s, ws, join["name"], frames[0].at, dead);
    assert frames == [Frame(Object(join), frames[0].at)] + frames[1..];
    assert "type" in join && join["type"] == "join";
    JoinThenRelay(s, ws, join, frames[0].at, frames[1..], dead);
    assert frames[1..][0] == frames[1];
    RelayStopsAt(reg, ws, frames[1..], dead, MissingField(field));
  }

  /** After a join, handle_player_connection registers and goes on to the relay loop. */
  lemma JoinThenRelay(s: ServerState, ws: ConnId, join: JsonObject, at: string, rest: seq<Frame>, dead: set<ConnId>)
    requires Valid(s) && "type" in join && join["type"] == "join" && "name" in join
    ensures Serve(s, ws, [Frame(Object(join), at)] + rest, dead)
         == RelayLoop(Register(s, ws, join["name"], at, dead), ws, rest, dead)
  {
    var frames := [Frame(Object(join), at)] + rest;
    assert frames[0] == Frame(Object(join), at) && frames[1..] == rest;
  }

  /**
   * A frame that decodes to something other than an object ends the relay
   * loop: `.get` raises while the sender is registered, and the lookup of
   * the sender raises first once a failed send has removed it.
   */
  lemma RelayStopsAtNonObject(s: ServerState, ws: ConnId, frames: seq<Frame>, dead: set<ConnId>)
    requires Valid(s) && frames != [] && frames[0].payload.NotObject?
    ensures RelayLoop(s, ws, frames, dead)
         == Outcome(s, Raised(if ws in s.records then NotAnObject else UnregisteredSender))
  {
  }

  /** A message the handler accepts is handled, and the loop goes on with the next frame. */
  lemma RelayContinues(s: ServerState, ws: ConnId, frames: seq<Frame>, dead: set<ConnId>, t: ServerState)
    requires Valid(s) && frames != [] && frames[0].payload.Object?
    requires Dispatch(s, ws, frames[0].payload.fields, frames[0].at, dead) == Success(t)
    ensures Valid(t)
    ensures RelayLoop(s, ws, frames, dead) == RelayLoop(t, ws, frames[1..], dead)
  {
  }

  /** A message the handler rejects ends the relay loop with that exception. */
  lemma RelayStopsAt(s: ServerState, ws: ConnId, frames: seq<Frame>, dead: set<ConnId>, e: Fault)
    requires Valid(s) && frames != [] && frames[0].payload.Object?
    requires Dispatch(s, ws, frames[0].payload.fields, frames[0].at, dead) == Failure(e)
    ensures RelayLoop(s, ws, frames, dead) == Outcome(s, Raised(e))
  {
  }
}
