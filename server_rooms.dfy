// The two classes of the battle server: a GameRoom holding at most two
// players and moving through waiting, starting, playing and finished, and
// the MatchmakingManager with its waiting queue and its table of active
// rooms. Every method returns the messages it emits, in emission order.

module ServerRooms {
  import opened Wrappers
  import opened ServerProtocol
  import opened RoomSpec

  /** The `players.forEach(p => io.to(p.socketId).emit(m))` loop. */
  method Notify(ps: seq<Player>, m: Msg) returns (sent: seq<Sent>)
    ensures sent == ToEach(ps, m)
  {
    sent := [];
    var i := 0;
    while i < |ps|
      invariant 0 <= i <= |ps|
      invariant sent == ToEach(ps[..i], m)
    {
      assert ps[..i + 1] == ps[..i] + [ps[i]];
      ToEachSnoc(ps[..i], ps[i], m);
      sent := sent + [Sent(Socket(ps[i].id), m)];
      i := i + 1;
    }
    assert ps[..i] == ps;
  }

  /** The `players.forEach((p, id) => { if (id !== fromId) io.to(p.socketId).emit(m) })` loop. */
  method NotifyOthers(ps: seq<Player>, fromId: SocketId, m: Msg) returns (sent: seq<Sent>)
    ensures sent == ToEach(Without(ps, fromId), m)
  {
    sent := [];
    var i := 0;
    while i < |ps|
      invariant 0 <= i <= |ps|
      invariant sent == ToEach(Without(ps[..i], fromId), m)
    {
      ToEachOthersStep(ps, i, fromId, m);
      if ps[i].id != fromId {
        sent := sent + [Sent(Socket(ps[i].id), m)];
      }
      i := i + 1;
    }
    assert ps[..i] == ps;
  }

  /**
   * A finished room keeps its two players, and the same connection may queue
   * again and be matched into a second room. The walk of `removePlayerFromRoom`
   * then stops at the older, finished room: the player is taken out of it, its
   * old opponent is the one told of the disconnect, and the game in progress
   * is left running with nobody declared winner.
   */
  lemma StaleRoomShadowsCurrent(x: Player, y: Player, z: Player, now: int)
    requires x.id != y.id && x.id != z.id && y.id != z.id
    ensures var stale := RoomState([x, y], Finished, Some(0), Some(y.id));
      var members := map["old" := [x, y], "new" := [x, z]];
      FirstHolder(["old", "new"], members, x.id, 0) == Some(0)
      && Remove(stale, x.id, now) == Step(stale.(players := [y]), [])
  {
    assert Lookup([x, y], x.id) == Some(x);
    WithoutOne([x, y], 0);
    assert [x, y][..0] + [x, y][1..] == [y];
  }

  /**
   * Leaving the room the session belongs to, as the corrected disconnect does:
   * a game in progress ends with the opponent as winner, and that opponent is
   * sent exactly one victory notice.
   */
  lemma CurrentRoomDisconnectHandsWin(s: RoomState, playerId: SocketId, now: int)
    requires RoomValid(s) && s.gameState == Playing && |s.players| == 2
    requires Lookup(s.players, playerId).Some?
    ensures var r := Remove(s, playerId, now);
      r.state.gameState == Finished && r.state.winner.Some?
      && r.state.winner.value != playerId && Lookup(s.players, r.state.winner.value).Some?
      && Victories(r.sent) == 1
  {
    RemoveOutcomes(s, playerId, now);
    var r := Remove(s, playerId, now);
    var survivor := r.state.players[0];
    WithoutDistinct(s.players, playerId);
    assert Lookup(r.state.players, survivor.id) == Some(survivor);
    OneVictory(r.state.players, survivor.id, "opponent_disconnect", Elapsed(s, now));
    assert survivor in s.players;
  }

  class GameRoom {
    const id: RoomId
    /** The player Map in insertion order. */
    var players: seq<Player>
    var gameState: Status
    var startTime: Option<int>
    var winner: Option<SocketId>

    function Snapshot(): RoomState
      reads this
    {
      RoomState(players, gameState, startTime, winner)
    }

    ghost predicate Valid()
      reads this
    {
      RoomValid(Snapshot())
    }

    constructor (id: RoomId)
      ensures Valid() && this.id == id && Snapshot() == NewRoom
    {
      this.id := id;
      players := [];
      gameState := Waiting;
      startTime := None;
      winner := None;
    }

    method AddPlayer(p: Player, now: int) returns (added: bool, sent: seq<Sent>)
      requires Valid()
      modifies this
      ensures Valid()
      ensures added <==> old(|players|) < MaxPlayers
      ensures Snapshot() == Add(old(Snapshot()), id, p, now).state && sent == Add(old(Snapshot()), id, p, now).sent
    {
      if |players| >= MaxPlayers {
        return false, [];
      }
      PutDistinct(players, p);
      players := Put(players, p);
      added := true;
      sent := [];
      if |players| == MaxPlayers {
        sent := StartGame(now);
      }
    }

    /** `startGame`: the room starts its countdown and sends the roster to every player. */
    method StartGame(now: int) returns (sent: seq<Sent>)
      requires Valid()
      modifies this
      ensures Valid()
      ensures Snapshot() == Start(old(Snapshot()), id, now).state && sent == Start(old(Snapshot()), id, now).sent
    {
      gameState := Starting;
      startTime := Some(now);
      sent := Notify(players, GameStart(id, Roster(players), now));
    }

    /** The `setTimeout` callback of `startGame`: the game begins. */
    method CountdownElapsed() returns (sent: seq<Sent>)
      requires Valid()
      modifies this
      ensures Valid()
      ensures Snapshot() == Countdown(old(Snapshot())).state && sent == Countdown(old(Snapshot())).sent
    {
      gameState := Playing;
      sent := Notify(players, GameStateChange);
    }

    method EndGame(winnerId: SocketId, reason: string, now: int) returns (sent: seq<Sent>)
      requires Valid()
      modifies this
      ensures Valid()
      ensures Snapshot() == End(old(Snapshot()), winnerId, reason, now).state
      ensures sent == End(old(Snapshot()), winnerId, reason, now).sent
    {
      var duration := Elapsed(Snapshot(), now);
      gameState := Finished;
      winner := Some(winnerId);
      var result := ResultOf(players, winnerId, reason, duration);
      var loser := FirstOther(players, winnerId);
      sent := [];
      var i := 0;
      while i < |players|
        invariant 0 <= i <= |players|
        invariant sent == EndRound(players[..i], winnerId, result, loser, duration, reason)
      {
        var p := players[i];
        assert players[..i + 1][..i] == players[..i];
        sent := sent + [Sent(Socket(p.id), GameEnd(result, p.id == winnerId))];
        if p.id == winnerId {
          sent := sent + [Sent(Socket(p.id), VictoryFor(p, loser, duration, reason))];
        }
        i := i + 1;
      }
      assert players[..i] == players;
      assert sent == EndRound(players, winnerId, result, loser, duration, reason);
      var winnerPlayer := Lookup(players, winnerId);
      if winnerPlayer.Some? && loser.Some? && reason == "game_over" {
        sent := sent + [Sent(Socket(winnerPlayer.value.id),
                             OpponentGameOver(loser.value.username, loser.value.score, duration))];
      }
    }

    method RemovePlayer(playerId: SocketId, now: int) returns (removed: Option<Player>, sent: seq<Sent>)
      requires Valid()
      modifies this
      ensures Valid()
      ensures removed == old(Lookup(players, playerId))
      ensures Snapshot() == Remove(old(Snapshot()), playerId, now).state
      ensures sent == Remove(old(Snapshot()), playerId, now).sent
    {
      removed := Lookup(players, playerId);
      sent := [];
      if removed.Some? {
        WithoutDistinct(players, playerId);
        players := Without(players, playerId);
        if gameState == Playing && |players| == 1 {
          sent := EndGame(players[0].id, "opponent_disconnect", now);
        }
      }
    }

    method SendAttack(fromId: SocketId, cleared: int, now: int) returns (sent: seq<Sent>)
      ensures sent == Attack(Snapshot(), fromId, cleared, now)
    {
      var from := Lookup(players, fromId);
      var amount := ServerAttack(cleared);
      if from.None? || gameState != Playing || amount == 0 {
        return [];
      }
      var m := AttackReceived(from.value.username, amount, now);
      sent := NotifyOthers(players, fromId, m);
    }

    method UpdatePlayerStats(playerId: SocketId, stats: ClientStats, now: int) returns (sent: seq<Sent>)
      requires Valid()
      modifies this
      ensures Valid()
      ensures Snapshot() == UpdateStats(old(Snapshot()), playerId, stats, now).state
      ensures sent == UpdateStats(old(Snapshot()), playerId, stats, now).sent
    {
      var player := Lookup(players, playerId);
      sent := [];
      if player.Some? {
        var merged := Merge(player.value, stats);
        ReplaceDistinct(players, playerId, merged);
        players := Replace(players, playerId, merged);
        if stats.isGameOver == Some(true) && gameState == Playing {
          var other := FirstOther(players, playerId);
          if other.Some? {
            sent := EndGame(other.value.id, "knockout", now);
          }
        }
      }
    }

    method BroadcastGameState(now: int) returns (sent: seq<Sent>)
      ensures sent == Broadcast(Snapshot(), now)
    {
      sent := [];
      if gameState == Playing {
        sent := Notify(players, GameUpdate(Standings(players), now));
      }
    }
  }

  class MatchmakingManager {
    var waitingPlayers: seq<Player>
    var activeRooms: map<RoomId, GameRoom>
    /** The insertion order of the `activeRooms` Map. */
    var roomOrder: seq<RoomId>

    ghost predicate RoomsValid()
      reads this, activeRooms.Values
    {
      (forall rid :: rid in activeRooms ==> activeRooms[rid].id == rid && activeRooms[rid].Valid())
      && (forall rid :: rid in activeRooms <==> rid in roomOrder)
      && DistinctRooms(roomOrder)
    }

    /** The queue never holds two entries with one id, nor more than one entry. */
    ghost predicate Valid()
      reads this, activeRooms.Values
    {
      RoomsValid() && DistinctIds(waitingPlayers) && |waitingPlayers| <= 1
    }

    /** The player lists of the active rooms, by room id. */
    ghost function Members(): map<RoomId, seq<Player>>
      reads this, activeRooms.Values
    {
      map rid | rid in activeRooms :: activeRooms[rid].players
    }

    constructor ()
      ensures Valid()
      ensures waitingPlayers == [] && activeRooms == map[] && roomOrder == []
    {
      waitingPlayers := [];
      activeRooms := map[];
      roomOrder := [];
    }

    method RemovePlayerFromQueue(playerId: SocketId)
      requires Valid()
      modifies this
      ensures Valid()
      ensures waitingPlayers == Without(old(waitingPlayers), playerId)
      ensures activeRooms == old(activeRooms) && roomOrder == old(roomOrder)
    {
      WithoutDistinct(waitingPlayers, playerId);
      waitingPlayers := Without(waitingPlayers, playerId);
    }

    /**
     * Pairs the two oldest waiting players in a new room, when there are two.
     * `roomId` is the identifier `uuidv4()` draws, which no active room has.
     */
    method TryCreateMatch(roomId: RoomId, now: int) returns (matched: Option<(Player, Player)>, sent: seq<Sent>)
      requires RoomsValid() && roomId !in activeRooms
      modifies this
      ensures RoomsValid()
      ensures old(|waitingPlayers|) < 2 ==> matched.None? && sent == [] && unchanged(this)
      ensures old(|waitingPlayers|) >= 2 ==>
        var p1 := old(waitingPlayers[0]);
        var p2 := old(waitingPlayers[1]);
        matched == Some((p1, p2)) && waitingPlayers == old(waitingPlayers[2..])
        && roomId in activeRooms && fresh(activeRooms[roomId])
        && activeRooms == old(activeRooms)[roomId := activeRooms[roomId]]
        && roomOrder == old(roomOrder) + [roomId]
        && activeRooms[roomId].Snapshot() == Opened(roomId, p1, p2, now).state
        && sent == MatchMessages(roomId, p1, p2, now)
    {
      matched := None;
      sent := [];
      if |waitingPlayers| >= 2 {
        var p1 := waitingPlayers[0];
        var p2 := waitingPlayers[1];
        waitingPlayers := waitingPlayers[2..];
        var room := new GameRoom(roomId);
        var _, first := room.AddPlayer(p1, now);
        var _, second := room.AddPlayer(p2, now);
        activeRooms := activeRooms[roomId := room];
        roomOrder := roomOrder + [roomId];
        assert DistinctRooms(roomOrder) by {
          forall i, j | 0 <= i < j < |roomOrder| ensures roomOrder[i] != roomOrder[j] {
            if j == |roomOrder| - 1 { assert roomOrder[i] in old(roomOrder); }
            else { assert roomOrder[i] == old(roomOrder)[i] && roomOrder[j] == old(roomOrder)[j]; }
          }
        }
        matched := Some((p1, p2));
        sent := first + second
          + [Sent(Socket(p1.id), MatchFound(roomId, RosterEntry(p2.id, p2.username))),
             Sent(Socket(p2.id), MatchFound(roomId, RosterEntry(p1.id, p1.username)))];
      }
    }

    /** Drops any queued entry with the player's id, queues the player, and tries to form a match. */
    method AddPlayerToQueue(p: Player, roomId: RoomId, now: int) returns (matched: Option<(Player, Player)>, sent: seq<Sent>)
      requires Valid() && roomId !in activeRooms
      modifies this
      ensures Valid()
      ensures waitingPlayers == Paired(Enqueue(old(waitingPlayers), p))
      ensures var q := Enqueue(old(waitingPlayers), p);
        (|q| < 2 ==> matched.None? && sent == [] && activeRooms == old(activeRooms) && roomOrder == old(roomOrder))
        && (|q| >= 2 ==>
              matched == Some((q[0], q[1])) && q[0].id != q[1].id
              && roomId in activeRooms && fresh(activeRooms[roomId])
              && activeRooms == old(activeRooms)[roomId := activeRooms[roomId]]
              && roomOrder == old(roomOrder) + [roomId]
              && activeRooms[roomId].Snapshot() == Opened(roomId, q[0], q[1], now).state
              && sent == MatchMessages(roomId, q[0], q[1], now))
    {
      ghost var q := Enqueue(waitingPlayers, p);
      EnqueueDistinct(waitingPlayers, p);
      QueueStepSmall(waitingPlayers, Join(p));
      RemovePlayerFromQueue(p.id);
      waitingPlayers := waitingPlayers + [p];
      matched, sent := TryCreateMatch(roomId, now);
    }

    /** `getRoom`. */
    function GetRoom(roomId: RoomId): (r: Option<GameRoom>)
      reads this
      ensures r.Some? <==> roomId in activeRooms
      ensures r.Some? ==> r.value == activeRooms[roomId]
    {
      if roomId in activeRooms then Some(activeRooms[roomId]) else None
    }

    method RemoveRoom(roomId: RoomId)
      requires RoomsValid()
      modifies this
      ensures RoomsValid()
      ensures activeRooms == old(activeRooms) - {roomId} && roomOrder == DropRoom(old(roomOrder), roomId)
      ensures waitingPlayers == old(waitingPlayers)
    {
      DropRoomDistinct(roomOrder, roomId);
      activeRooms := activeRooms - {roomId};
      roomOrder := DropRoom(roomOrder, roomId);
    }

    /** One room's part of a disconnect: the player leaves it, and a room left empty is deleted. */
    method LeaveRoom(roomId: RoomId, playerId: SocketId, now: int) returns (removed: bool, sent: seq<Sent>)
      requires RoomsValid() && roomId in activeRooms
      modifies this, activeRooms[roomId]
      ensures RoomsValid()
      ensures waitingPlayers == old(waitingPlayers)
      ensures var room := old(activeRooms[roomId]);
        var step := Remove(old(room.Snapshot()), playerId, now);
        removed == old(Lookup(room.players, playerId)).Some?
        && room.Snapshot() == step.state && sent == step.sent
        && (removed && room.players == [] ==> activeRooms == old(activeRooms) - {roomId} && roomOrder == DropRoom(old(roomOrder), roomId))
        && (!(removed && room.players == []) ==> activeRooms == old(activeRooms) && roomOrder == old(roomOrder))
    {
      var room := activeRooms[roomId];
      var gone;
      gone, sent := room.RemovePlayer(playerId, now);
      removed := gone.Some?;
      if removed && room.players == [] {
        RemoveRoom(roomId);
      }
    }

    /**
     * `removePlayerFromRoom`: walks the rooms in insertion order and removes
     * the player from the first room that holds it, returning that room.
     */
    method RemovePlayerFromRoom(playerId: SocketId, now: int) returns (found: Option<GameRoom>, sent: seq<Sent>)
      requires RoomsValid()
      modifies this, activeRooms.Values
      ensures RoomsValid()
      ensures waitingPlayers == old(waitingPlayers)
      ensures var h := old(FirstHolder(roomOrder, Members(), playerId, 0));
        (h.None? ==> found.None? && sent == [] && activeRooms == old(activeRooms) && roomOrder == old(roomOrder)
                     && forall r :: r in old(activeRooms.Values) ==> unchanged(r))
        && (h.Some? ==>
              var rid := old(roomOrder[h.value]);
              var room := old(activeRooms[rid]);
              var step := Remove(old(room.Snapshot()), playerId, now);
              found == Some(room) && room.Snapshot() == step.state && sent == step.sent
              && (forall r :: r in old(activeRooms.Values) && r != room ==> unchanged(r))
              && (room.players == [] ==> activeRooms == old(activeRooms) - {rid} && roomOrder == DropRoom(old(roomOrder), rid))
              && (room.players != [] ==> activeRooms == old(activeRooms) && roomOrder == old(roomOrder)))
    {
      // `removePlayer` leaves a room without the player as it was and returns
      // undefined, so the walk only has to look at each room until one holds it.
      ghost var members := Members();
      var i := 0;
      while i < |roomOrder| && Lookup(activeRooms[roomOrder[i]].players, playerId).None?
        invariant 0 <= i <= |roomOrder|
        invariant FirstHolder(roomOrder, members, playerId, 0) == FirstHolder(roomOrder, members, playerId, i)
      {
        assert members[roomOrder[i]] == activeRooms[roomOrder[i]].players;
        i := i + 1;
      }
      if i == |roomOrder| {
        return None, [];
      }
      var rid := roomOrder[i];
      var room := activeRooms[rid];
      assert members[rid] == room.players;
      var _, s := LeaveRoom(rid, playerId, now);
      return Some(room), s;
    }

    /**
     * The removal the disconnect handler evidently intends: the player leaves
     * the room its connection is playing in, named by `roomId`.
     */
    method RemovePlayerFromRoomOf(roomId: RoomId, playerId: SocketId, now: int) returns (found: Option<GameRoom>, sent: seq<Sent>)
      requires RoomsValid()
      modifies this, activeRooms.Values
      ensures RoomsValid()
      ensures waitingPlayers == old(waitingPlayers)
      ensures forall r :: r in old(activeRooms.Values) && (roomId !in old(activeRooms) || r != old(activeRooms[roomId])) ==> unchanged(r)
      ensures found.Some? <==> roomId in old(activeRooms) && old(Lookup(activeRooms[roomId].players, playerId)).Some?
      ensures found.None? ==> sent == [] && activeRooms == old(activeRooms) && roomOrder == old(roomOrder)
      ensures found.Some? ==>
        var room := old(activeRooms[roomId]);
        var step := Remove(old(room.Snapshot()), playerId, now);
        found.value == room && room.Snapshot() == step.state && sent == step.sent
        && (room.players == [] ==> activeRooms == old(activeRooms) - {roomId} && roomOrder == DropRoom(old(roomOrder), roomId))
        && (room.players != [] ==> activeRooms == old(activeRooms) && roomOrder == old(roomOrder))
    {
      found, sent := None, [];
      if roomId in activeRooms {
        var room := activeRooms[roomId];
        var removed;
        removed, sent := LeaveRoom(roomId, playerId, now);
        if removed {
          found := Some(room);
        }
      }
    }
  }
}
