// The per-connection handlers of the battle server. Each connection's handler
// closure owns a `currentPlayer` variable that is null until `joinQueue`; the
// server also keeps the Map of connected sockets. Those are held here as one
// value, `Gateway`, threaded through the handlers, while the matchmaker is
// the shared object every handler works on. A handler takes the socket id of
// the connection the event arrived on and returns what it emitted, in order.

module ServerGateway {
  import opened Wrappers
  import opened ServerProtocol
  import opened RoomSpec
  import opened ServerRooms

  /**
   * What a connection's `currentPlayer` tells its handlers: the name it
   * queued with, and the room it was seated in (set by `addPlayer` through
   * the shared player object, or by `joinRoom`). Its id is the socket id.
   */
  datatype Session = Session(username: string, roomId: Option<RoomId>)

  /**
   * The keys of `connectedPlayers`, the non-null `currentPlayer` of each
   * connection, and the rooms whose 3-second countdown is still pending.
   */
  datatype Gateway = Gateway(connected: set<SocketId>, sessions: map<SocketId, Session>, countdowns: set<RoomId>)

  const Started := Gateway({}, map[], {})

  /** `player.roomId = room.id` for the session, if any, that owns the player object. */
  function Seat(sessions: map<SocketId, Session>, id: SocketId, roomId: RoomId): (r: map<SocketId, Session>)
    ensures r.Keys == sessions.Keys
    ensures id in sessions ==> r[id] == sessions[id].(roomId := Some(roomId))
    ensures forall k :: k in sessions && k != id ==> r[k] == sessions[k]
  {
    if id in sessions then sessions[id := sessions[id].(roomId := Some(roomId))] else sessions
  }

  /** The room id the guard `currentPlayer && currentPlayer.roomId` lets through. */
  function SeatOf(g: Gateway, sid: SocketId): (r: Option<RoomId>)
    ensures r.Some? <==> sid in g.sessions && g.sessions[sid].roomId.Some?
    ensures r.Some? ==> r.value == g.sessions[sid].roomId.value
  {
    if sid in g.sessions then g.sessions[sid].roomId else None
  }

  /** The fields `gameUpdate` relays to the opponent: everything but the game-over flag. */
  function Relayed(stats: ClientStats): (r: ClientStats)
    ensures r.isGameOver.None?
    ensures r.board == stats.board && r.score == stats.score && r.lines == stats.lines && r.level == stats.level
  {
    stats.(isGameOver := None)
  }

  /** `io.on('connection')`: the socket is registered and its `currentPlayer` starts out null. */
  function OnConnection(g: Gateway, sid: SocketId): (r: Gateway)
    ensures sid in r.connected && sid !in r.sessions
    ensures r.connected - {sid} == g.connected - {sid} && r.countdowns == g.countdowns
    ensures forall k :: k in g.sessions && k != sid ==> k in r.sessions && r.sessions[k] == g.sessions[k]
  {
    Gateway(g.connected + {sid}, g.sessions - {sid}, g.countdowns)
  }

  /**
   * `joinQueue`: a fresh player with the requested name, or `Joueur<n>` for
   * the drawn n below 1000, is queued; a match seats both players and starts
   * the countdown; the sender then hears its queue position. `roomId` is the
   * identifier `uuidv4()` would draw, which no active room has.
   */
  method OnJoinQueue(mm: MatchmakingManager, g: Gateway, sid: SocketId, requested: string, n: nat, roomId: RoomId, now: int)
    returns (r: Gateway, sent: seq<Sent>)
    requires mm.Valid() && n < 1000 && roomId !in mm.activeRooms
    modifies mm
    ensures mm.Valid()
    ensures var p := NewPlayer(sid, ChosenName(requested, n));
      var q := Enqueue(old(mm.waitingPlayers), p);
      var w := |Paired(q)|;
      var joined := g.sessions[sid := Session(p.username, None)];
      mm.waitingPlayers == Paired(q) && r.connected == g.connected
      && (|q| < 2 ==>
            r.sessions == joined && r.countdowns == g.countdowns
            && mm.activeRooms == old(mm.activeRooms)
            && sent == [Sent(Socket(sid), QueueJoined(w, w * 5))])
      && (|q| >= 2 ==>
            q[1] == p && r.sessions == Seat(Seat(joined, q[0].id, roomId), sid, roomId)
            && r.countdowns == g.countdowns + {roomId}
            && roomId in mm.activeRooms && fresh(mm.activeRooms[roomId])
            && mm.activeRooms == old(mm.activeRooms)[roomId := mm.activeRooms[roomId]]
            && mm.activeRooms[roomId].Snapshot() == Opened(roomId, q[0], q[1], now).state
            && sent == MatchMessages(roomId, q[0], q[1], now) + [Sent(Socket(sid), QueueJoined(0, 0))])
  {
    var name := ChosenName(requested, n);
    var p := NewPlayer(sid, name);
    var matched, s := mm.AddPlayerToQueue(p, roomId, now);
    var joined := g.sessions[sid := Session(name, None)];
    r := g.(sessions := joined);
    if matched.Some? {
      r := Gateway(g.connected, Seat(Seat(joined, matched.value.0.id, roomId), matched.value.1.id, roomId),
                   g.countdowns + {roomId});
    }
    var w := |mm.waitingPlayers|;
    sent := s + [Sent(Socket(sid), QueueJoined(w, w * 5))];
  }

  /** `leaveQueue`. */
  method OnLeaveQueue(mm: MatchmakingManager, g: Gateway, sid: SocketId) returns (sent: seq<Sent>)
    requires mm.Valid()
    modifies mm
    ensures mm.Valid() && mm.activeRooms == old(mm.activeRooms)
    ensures sid !in g.sessions ==> mm.waitingPlayers == old(mm.waitingPlayers) && sent == []
    ensures sid in g.sessions ==>
      mm.waitingPlayers == Without(old(mm.waitingPlayers), sid) && sent == [Sent(Socket(sid), QueueLeft)]
  {
    sent := [];
    if sid in g.sessions {
      mm.RemovePlayerFromQueue(sid);
      sent := [Sent(Socket(sid), QueueLeft)];
    }
  }

  /** `gameMove`: relayed to the rest of the room, when the sender's room is active. */
  method OnGameMove(mm: MatchmakingManager, g: Gateway, sid: SocketId, move: string) returns (sent: seq<Sent>)
    ensures sent != [] <==> SeatOf(g, sid).Some? && SeatOf(g, sid).value in mm.activeRooms
    ensures sent != [] ==> sent == [Sent(RoomExcept(SeatOf(g, sid).value, sid), OpponentMove(sid, move))]
  {
    sent := [];
    var seat := SeatOf(g, sid);
    if seat.Some? && mm.GetRoom(seat.value).Some? {
      sent := [Sent(RoomExcept(seat.value, sid), OpponentMove(sid, move))];
    }
  }

  /** `sendAttack`, and its alias `attack`: the room relays the attack of the sender. */
  method OnSendAttack(mm: MatchmakingManager, g: Gateway, sid: SocketId, lines: int, now: int) returns (sent: seq<Sent>)
    ensures var seat := SeatOf(g, sid);
      sent == if seat.Some? && seat.value in mm.activeRooms
              then Attack(mm.activeRooms[seat.value].Snapshot(), sid, lines, now) else []
  {
    sent := [];
    var seat := SeatOf(g, sid);
    if seat.Some? {
      var room := mm.GetRoom(seat.value);
      if room.Some? {
        sent := room.value.SendAttack(sid, lines, now);
      }
    }
  }

  /** `playerReady`: passed on to the rest of the room, whether or not the room is still active. */
  function OnPlayerReady(g: Gateway, sid: SocketId): (sent: seq<Sent>)
    ensures sent != [] <==> SeatOf(g, sid).Some?
    ensures sent != [] ==> sent == [Sent(RoomExcept(SeatOf(g, sid).value, sid), OpponentReady(sid))]
  {
    var seat := SeatOf(g, sid);
    if seat.Some? then [Sent(RoomExcept(seat.value, sid), OpponentReady(sid))] else []
  }

  /**
   * `joinRoom`: a player of the named room is seated in it and hears its
   * roster. An empty id is falsy and ignored.
   */
  method OnJoinRoom(mm: MatchmakingManager, g: Gateway, sid: SocketId, roomId: RoomId) returns (r: Gateway, sent: seq<Sent>)
    ensures var ok := sid in g.sessions && roomId != "" && roomId in mm.activeRooms
                      && Lookup(mm.activeRooms[roomId].players, sid).Some?;
      (ok ==> r == g.(sessions := g.sessions[sid := g.sessions[sid].(roomId := Some(roomId))])
              && sent == [Sent(Socket(sid), RoomJoined(roomId, Roster(mm.activeRooms[roomId].players)))])
      && (!ok ==> r == g && sent == [])
  {
    r, sent := g, [];
    if sid in g.sessions && roomId != "" {
      var room := mm.GetRoom(roomId);
      if room.Some? && Lookup(room.value.players, sid).Some? {
        r := g.(sessions := g.sessions[sid := g.sessions[sid].(roomId := Some(roomId))]);
        sent := [Sent(Socket(sid), RoomJoined(roomId, Roster(room.value.players)))];
      }
    }
  }

  /**
   * The statistics handlers share this step: the sender's active room merges
   * its statistics, which may end the game by knockout.
   */
  method MergeStats(mm: MatchmakingManager, rid: RoomId, sid: SocketId, stats: ClientStats, now: int)
    returns (sent: seq<Sent>)
    requires mm.Valid() && rid in mm.activeRooms
    modifies mm.activeRooms[rid]
    ensures mm.Valid()
    ensures var room := mm.activeRooms[rid];
      room.Snapshot() == UpdateStats(old(room.Snapshot()), sid, stats, now).state
      && sent == UpdateStats(old(room.Snapshot()), sid, stats, now).sent
  {
    var room := mm.activeRooms[rid];
    sent := room.UpdatePlayerStats(sid, stats, now);
    assert mm.RoomsValid() by {
      forall k | k in mm.activeRooms ensures mm.activeRooms[k].id == k && mm.activeRooms[k].Valid() {
        if mm.activeRooms[k] != room {
          assert unchanged(mm.activeRooms[k]);
        }
      }
    }
  }

  /** `updateStats`: the room merges the statistics, then broadcasts every player's standing. */
  method OnUpdateStats(mm: MatchmakingManager, g: Gateway, sid: SocketId, stats: ClientStats, now: int)
    returns (sent: seq<Sent>)
    requires mm.Valid()
    modifies mm.activeRooms.Values
    ensures mm.Valid()
    ensures var seat := SeatOf(g, sid);
      (seat.Some? && seat.value in mm.activeRooms ==>
         var room := mm.activeRooms[seat.value];
         var step := UpdateStats(old(room.Snapshot()), sid, stats, now);
         room.Snapshot() == step.state && sent == step.sent + Broadcast(step.state, now))
      && (!(seat.Some? && seat.value in mm.activeRooms) ==> sent == [])
  {
    sent := [];
    var seat := SeatOf(g, sid);
    if seat.Some? && mm.GetRoom(seat.value).Some? {
      var merged := MergeStats(mm, seat.value, sid, stats, now);
      var standings := mm.activeRooms[seat.value].BroadcastGameState(now);
      sent := merged + standings;
    }
  }

  /** `gameUpdate`: the room merges the statistics, and the rest of the room is sent them. */
  method OnGameUpdate(mm: MatchmakingManager, g: Gateway, sid: SocketId, stats: ClientStats, now: int)
    returns (sent: seq<Sent>)
    requires mm.Valid()
    modifies mm.activeRooms.Values
    ensures mm.Valid()
    ensures var seat := SeatOf(g, sid);
      (seat.Some? && seat.value in mm.activeRooms ==>
         var room := mm.activeRooms[seat.value];
         var step := UpdateStats(old(room.Snapshot()), sid, stats, now);
         room.Snapshot() == step.state
         && sent == step.sent + [Sent(RoomExcept(seat.value, sid), OpponentUpdate(sid, Relayed(stats)))])
      && (!(seat.Some? && seat.value in mm.activeRooms) ==> sent == [])
  {
    sent := [];
    var seat := SeatOf(g, sid);
    if seat.Some? && mm.GetRoom(seat.value).Some? {
      var merged := MergeStats(mm, seat.value, sid, stats, now);
      sent := merged + [Sent(RoomExcept(seat.value, sid), OpponentUpdate(sid, Relayed(stats)))];
    }
  }

  /**
   * `gameEnd`: the sender reports its own loss; a game in progress ends with
   * the other player of the room as winner.
   */
  method OnGameEnd(mm: MatchmakingManager, g: Gateway, sid: SocketId, isGameOver: bool, reason: string, now: int)
    returns (sent: seq<Sent>)
    requires mm.Valid()
    modifies mm.activeRooms.Values
    ensures mm.Valid()
    ensures var seat := SeatOf(g, sid);
      (seat.Some? && seat.value in mm.activeRooms ==>
         var room := mm.activeRooms[seat.value];
         var step := ReportLoss(old(room.Snapshot()), sid, isGameOver, reason, now);
         room.Snapshot() == step.state && sent == step.sent)
      && (!(seat.Some? && seat.value in mm.activeRooms) ==> sent == [])
  {
    sent := [];
    var seat := SeatOf(g, sid);
    if seat.Some? && mm.GetRoom(seat.value).Some? {
      var room := mm.activeRooms[seat.value];
      if room.gameState == Playing {
        var other := FirstOther(room.players, sid);
        if other.Some? {
          sent := room.EndGame(other.value.id, LossReason(isGameOver, reason), now);
          assert mm.RoomsValid() by {
            forall k | k in mm.activeRooms ensures mm.activeRooms[k].id == k && mm.activeRooms[k].Valid() {
              if mm.activeRooms[k] != room {
                assert unchanged(mm.activeRooms[k]);
              }
            }
          }
        }
      }
    }
  }

  /**
   * The `setTimeout` callback of `startGame`, three seconds on. It acts on the
   * room object it was scheduled for; a room no longer active has no players
   * left, so only active rooms are looked at.
   */
  method OnCountdownElapsed(mm: MatchmakingManager, g: Gateway, rid: RoomId) returns (r: Gateway, sent: seq<Sent>)
    requires mm.Valid() && rid in g.countdowns
    modifies mm.activeRooms.Values
    ensures mm.Valid()
    ensures r == g.(countdowns := g.countdowns - {rid})
    ensures rid in mm.activeRooms ==>
      var room := mm.activeRooms[rid];
      room.Snapshot() == Countdown(old(room.Snapshot())).state && sent == Countdown(old(room.Snapshot())).sent
    ensures rid !in mm.activeRooms ==> sent == []
  {
    r := g.(countdowns := g.countdowns - {rid});
    sent := [];
    if rid in mm.activeRooms {
      var room := mm.activeRooms[rid];
      sent := room.CountdownElapsed();
      assert mm.RoomsValid() by {
        forall k | k in mm.activeRooms ensures mm.activeRooms[k].id == k && mm.activeRooms[k].Valid() {
          if mm.activeRooms[k] != room {
            assert unchanged(mm.activeRooms[k]);
          }
        }
      }
    }
  }

  /**
   * `disconnect`: the socket is forgotten, its player leaves the queue and
   * the first room, in the order the rooms were created, that still lists
   * it, and whoever is left in that room is told. That room may be one
   * whose game is over rather than the one the connection plays in.
   */
  method OnDisconnect(mm: MatchmakingManager, g: Gateway, sid: SocketId, now: int) returns (r: Gateway, sent: seq<Sent>)
    requires mm.Valid()
    modifies mm, mm.activeRooms.Values
    ensures mm.Valid()
    ensures r == g.(connected := g.connected - {sid})
    ensures sid !in g.sessions ==>
      sent == [] && mm.waitingPlayers == old(mm.waitingPlayers) && mm.activeRooms == old(mm.activeRooms)
    ensures sid in g.sessions ==> mm.waitingPlayers == Without(old(mm.waitingPlayers), sid)
    ensures sid in g.sessions ==>
      (var h := old(FirstHolder(mm.roomOrder, mm.Members(), sid, 0));
       (h.None? ==> sent == [] && mm.activeRooms == old(mm.activeRooms))
       && (h.Some? ==>
             var room := old(mm.activeRooms[mm.roomOrder[h.value]]);
             var step := Remove(old(room.Snapshot()), sid, now);
             room.Snapshot() == step.state
             && sent == step.sent + ToEach(step.state.players, OpponentDisconnect(sid, g.sessions[sid].username))))
  {
    r := g.(connected := g.connected - {sid});
    sent := [];
    if sid in g.sessions {
      var current := g.sessions[sid];
      ghost var members := mm.Members();
      mm.RemovePlayerFromQueue(sid);
      assert mm.Members() == members;
      var found, left := mm.RemovePlayerFromRoom(sid, now);
      if found.Some? {
        var notices := Notify(found.value.players, OpponentDisconnect(sid, current.username));
        sent := left + notices;
      }
    }
  }

  /**
   * The disconnect handler the source evidently intends: the player leaves
   * the room its connection is seated in, so whoever plays against it there
   * is told, whatever finished rooms still list it.
   */
  method OnDisconnectCorrected(mm: MatchmakingManager, g: Gateway, sid: SocketId, now: int) returns (r: Gateway, sent: seq<Sent>)
    requires mm.Valid()
    modifies mm, mm.activeRooms.Values
    ensures mm.Valid()
    ensures r == g.(connected := g.connected - {sid})
    ensures sid !in g.sessions ==> sent == [] && mm.waitingPlayers == old(mm.waitingPlayers)
    ensures sid in g.sessions ==> mm.waitingPlayers == Without(old(mm.waitingPlayers), sid)
    ensures var seat := SeatOf(g, sid);
      var held := seat.Some? && seat.value in old(mm.activeRooms)
                  && old(Lookup(mm.activeRooms[seat.value].players, sid)).Some?;
      (held ==>
         var room := old(mm.activeRooms[seat.value]);
         var step := Remove(old(room.Snapshot()), sid, now);
         room.Snapshot() == step.state
         && sent == step.sent + ToEach(step.state.players, OpponentDisconnect(sid, g.sessions[sid].username)))
      && (!held ==> sent == [] && mm.activeRooms == old(mm.activeRooms))
  {
    r := g.(connected := g.connected - {sid});
    sent := [];
    if sid in g.sessions {
      var current := g.sessions[sid];
      mm.RemovePlayerFromQueue(sid);
      if current.roomId.Some? {
        var found, left := mm.RemovePlayerFromRoomOf(current.roomId.value, sid, now);
        if found.Some? {
          var notices := Notify(found.value.players, OpponentDisconnect(sid, current.username));
          sent := left + notices;
        }
      }
    }
  }

  /**
   * A player who disconnects from a game in progress hands the win to the
   * other player, who is sent one victory notice and, last of all, the
   * `opponentDisconnect` notice.
   */
  lemma DisconnectNotifiesSurvivor(s: RoomState, sid: SocketId, username: string, now: int)
    requires RoomValid(s) && s.gameState == Playing && |s.players| == 2 && Lookup(s.players, sid).Some?
    ensures var step := Remove(s, sid, now);
      var sent := step.sent + ToEach(step.state.players, OpponentDisconnect(sid, username));
      |step.state.players| == 1 && step.state.players[0].id != sid
      && step.state.winner == Some(step.state.players[0].id)
      && Victories(sent) == 1
      && sent[|sent| - 1] == Sent(Socket(step.state.players[0].id), OpponentDisconnect(sid, username))
  {
    var step := Remove(s, sid, now);
    CurrentRoomDisconnectHandsWin(s, sid, now);
    RemoveOutcomes(s, sid, now);
    var notices := ToEach(step.state.players, OpponentDisconnect(sid, username));
    assert |notices| == 1;
    VictoriesAppend(step.sent, notices);
    assert notices == [notices[0]];
    assert Victories([notices[0]]) == 0 by {
      assert [notices[0]][..0] == [];
    }
  }
}
