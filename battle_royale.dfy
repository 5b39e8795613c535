// The class BattleRoyaleManager of src/game/BattleRoyaleManager.js: its
// fields updated in place by its handlers. Every method is proved to leave
// the fields as the function of the same name in BattleRoyaleSpec says,
// so the properties proved there (the throttle, the routing of attacks,
// the single win on disconnect) hold of the manager. Like those
// functions, the methods make the engine calls the source intends; the
// `…AsWritten` functions of BattleRoyaleSpec say where the source throws.

module BattleRoyale {
  import opened Wrappers
  import ServerProtocol
  import opened BattleRoyaleSpec

  class BattleRoyaleManager {
    var gameState: Phase
    var localEngine: Option<LocalEngine>
    var opponentData: Option<Opponent>
    var localPlayerData: LocalPlayer
    var pendingAttacks: seq<int>
    var lastStatsUpdate: int
    var gameStartTime: Option<int>
    var outbox: seq<Upstream>
    var notices: seq<Notice>
    const listeners: Listeners

    /** The fields as one value. */
    function Model(): Client
      reads this
    {
      Client(gameState, localEngine, opponentData, localPlayerData, pendingAttacks,
             lastStatsUpdate, gameStartTime, outbox, notices, listeners)
    }

    /** `constructor(socketManager, callbacks…)`, `listeners` saying which callbacks were given. */
    constructor(listeners: Listeners)
      ensures Model() == NewClient(listeners)
    {
      this.listeners := listeners;
      gameState := Waiting;
      localEngine, opponentData := None, None;
      localPlayerData := NoOne;
      pendingAttacks, lastStatsUpdate, gameStartTime := [], 0, None;
      outbox, notices := [], [];
    }

    /** One call on a callback, made when `given`. */
    method Tell(given: bool, n: Notice)
      modifies this
      ensures Model() == BattleRoyaleSpec.Tell(old(Model()), given, n)
    {
      if given {
        notices := notices + [n];
      }
    }

    /** One call on the socket manager. */
    method Send(u: Upstream)
      modifies this
      ensures Model() == BattleRoyaleSpec.Send(old(Model()), u)
    {
      outbox := outbox + [u];
    }

    /** `updateGameState()` */
    method UpdateGameState()
      modifies this
      ensures Model() == BattleRoyaleSpec.UpdateGameState(old(Model()))
    {
      Tell(listeners.gameUpdate, Snapshot(gameState, localPlayerData, opponentData, localEngine.Some?));
    }

    /** `sendStatsUpdate()` */
    method SendStatsUpdate()
      modifies this
      ensures Model() == BattleRoyaleSpec.Send(old(Model()), StatsMessage(old(Model())))
    {
      Send(SendGameUpdate(localPlayerData.id, localPlayerData.score, localPlayerData.lines,
                          localPlayerData.level, localEngine.Some?, localPlayerData.isGameOver));
    }

    /** `handleLocalGameUpdate(gameState)` at time `now`. */
    method HandleLocalGameUpdate(s: LocalStats, now: int)
      modifies this
      ensures Model() == LocalGameUpdate(old(Model()), s, now)
    {
      localPlayerData := localPlayerData.(score := s.score, lines := s.lines, level := s.level);
      if now - lastStatsUpdate > StatsInterval {
        SendStatsUpdate();
        lastStatsUpdate := now;
      }
      Tell(listeners.gameUpdate, EngineUpdate(s));
    }

    /** `handleLocalGameOver()` */
    method HandleLocalGameOver()
      modifies this
      ensures Model() == LocalGameOver(old(Model()))
    {
      localPlayerData := localPlayerData.(isGameOver := true);
      gameState := Finished;
      Send(SendGameEnd(localPlayerData.id, localPlayerData.score, "game_over", true));
      Tell(listeners.gameOver, LocalLoss);
    }

    /** `handleLocalLinesClear(lines)` */
    method HandleLocalLinesClear(lines: int)
      modifies this
      ensures Model() == LocalLinesClear(old(Model()), lines)
    {
      if lines >= LinesRequired {
        Send(SendAttack(lines, localPlayerData.id));
      }
    }

    /** `startMatchmaking(username)`, the socket connected or not and with
        the id `socketId`; `roll` is the draw that names a player who gave
        no name. */
    method StartMatchmaking(connected: bool, socketId: Option<SocketId>, username: string, roll: nat)
      returns (started: bool)
      modifies this
      ensures (Model(), started) == BattleRoyaleSpec.StartMatchmaking(old(Model()), connected, socketId, username, roll)
    {
      if !connected {
        return false;
      }
      gameState := Matchmaking;
      localPlayerData := localPlayerData.(username := ChosenName(username, roll));
      localPlayerData := localPlayerData.(id := socketId);
      Send(JoinQueue(localPlayerData.username));
      UpdateGameState();
      started := true;
    }

    /** `cancelMatchmaking()` */
    method CancelMatchmaking()
      modifies this
      ensures Model() == BattleRoyaleSpec.CancelMatchmaking(old(Model()))
    {
      if gameState == Matchmaking {
        Send(LeaveQueue);
        gameState := Waiting;
        UpdateGameState();
      }
    }

    /** `joinRoom(roomId)`, the socket's id being `socketId`. */
    method JoinRoom(roomId: RoomId, socketId: Option<SocketId>)
      modifies this
      ensures Model() == BattleRoyaleSpec.JoinRoom(old(Model()), roomId, socketId)
    {
      localPlayerData := localPlayerData.(id := socketId);
      Send(EnterRoom(roomId));
      gameState := Playing;
      UpdateGameState();
    }

    /** `handleMatchFound(data)` */
    method HandleMatchFound(opponent: ServerProtocol.RosterEntry)
      modifies this
      ensures Model() == MatchFound(old(Model()), opponent)
    {
      opponentData := Some(ServerProtocol.Player(opponent.id, opponent.username, 0, 0, 1, false));
      gameState := Starting;
      UpdateGameState();
    }

    /** `new TetrisEngine(…)` at time `now`: its `init()` calls back into
        `handleLocalGameUpdate` before the engine is stored. */
    method CreateEngine(now: int)
      modifies this
      ensures Model() == BattleRoyaleSpec.CreateEngine(old(Model()), now)
    {
      HandleLocalGameUpdate(FirstStats, now);
      localEngine := Some(LocalEngine([]));
    }

    /** `initializeLocalEngine()` at time `now`. */
    method InitializeLocalEngine(now: int) returns (e: LocalEngine)
      modifies this
      ensures (Model(), e) == BattleRoyaleSpec.InitializeLocalEngine(old(Model()), now)
    {
      CreateEngine(now);
      e := localEngine.value;
    }

    /** `initializeLocalGame()` at time `now`. */
    method InitializeLocalGame(now: int)
      modifies this
      ensures Model() == BattleRoyaleSpec.InitializeLocalGame(old(Model()), now)
    {
      if localEngine.None? {
        CreateEngine(now);
      }
      gameStartTime := Some(now);
    }

    /** `handleGameStart(data)` at time `now`. */
    method HandleGameStart(now: int)
      modifies this
      ensures Model() == GameStart(old(Model()), now)
    {
      InitializeLocalGame(now);
      gameState := Playing;
      UpdateGameState();
    }

    /** `handleGameEnd(data)` */
    method HandleGameEnd(d: EndReport)
      modifies this
      ensures Model() == GameEnd(old(Model()), d)
    {
      var summary := GameOver(d.isWinner, d.reason, d.duration, localPlayerData, opponentData);
      gameState := Finished;
      localEngine := None;
      Tell(listeners.gameOver, summary);
    }

    /** `handleOpponentGameOver(data)` */
    method HandleOpponentGameOver(loss: LossReport)
      modifies this
      ensures Model() == OpponentGameOver(old(Model()), loss)
    {
      var notice := VictoryNotice(OpponentOut, loss.opponentName, localPlayerData.score,
                                  Some(loss.opponentScore), loss.duration);
      if opponentData.Some? {
        opponentData := Some(opponentData.value.(isGameOver := true));
      }
      Tell(listeners.victory, notice);
    }

    /** `handleVictory(data)` */
    method HandleVictory(report: VictoryReport)
      modifies this
      ensures Model() == Victory(old(Model()), report)
    {
      Tell(listeners.victory, Relayed(report));
    }

    /** `handleAttackReceived(lines)`, with the engine call the source
        intends (see README). */
    method HandleAttackReceived(lines: int)
      modifies this
      ensures Model() == AttackReceived(old(Model()), lines)
    {
      if localEngine.Some? && gameState == Playing {
        localEngine := Some(LocalEngine(localEngine.value.received + [lines]));
      } else {
        pendingAttacks := pendingAttacks + [lines];
      }
      Tell(listeners.attackReceived, AttackNotice(lines));
    }

    /** `handleOpponentMove(data)` from `sender` at time `now`. */
    method HandleOpponentMove(sender: SocketId, data: ServerProtocol.ClientStats, now: int)
      modifies this
      ensures Model() == OpponentMove(old(Model()), sender, data, now)
    {
      if opponentData.None? || sender != opponentData.value.id {
        return;
      }
      var duration := Elapsed(Model(), now);
      var o := opponentData.value;
      o := o.(score := Or(data.score, o.score), lines := Or(data.lines, o.lines), level := Or(data.level, o.level));
      o := o.(isGameOver := data.isGameOver == Some(true) || o.isGameOver);
      opponentData := Some(o);
      if data.isGameOver == Some(true) && !localPlayerData.isGameOver {
        HandleOpponentGameOver(LossReport(Some(o.username), o.score, duration));
      }
      var shown := opponentData.value;
      Tell(listeners.opponentUpdate, OpponentView(data.board, shown.score, shown.lines, shown.level, shown.isGameOver));
    }

    /** `handleOpponentDisconnect()` at time `now`. */
    method HandleOpponentDisconnect(now: int)
      modifies this
      ensures Model() == OpponentDisconnect(old(Model()), now)
    {
      if gameState != Playing {
        return;
      }
      var duration := Elapsed(Model(), now);
      var name := if opponentData.Some? then Some(opponentData.value.username) else None;
      Tell(listeners.victory, VictoryNotice(OpponentLeft, name, localPlayerData.score, None, duration));
      HandleGameEnd(EndReport(true, "opponent_disconnect", duration));
    }

    /** `handleGameUpdate(data)`, `players` being absent or the list it carries. */
    method HandleGameUpdate(players: Option<seq<ServerProtocol.Standing>>)
      modifies this
      ensures Model() == GameUpdate(old(Model()), players)
    {
      if players.None? || opponentData.None? {
        return;
      }
      var found := FindStanding(players.value, opponentData.value.id);
      if found.Some? {
        var s := players.value[found.value];
        opponentData := Some(ServerProtocol.Player(s.id, s.username, s.score, s.lines, s.level, s.isGameOver));
        UpdateGameState();
      }
    }

    /** `destroy()` */
    method Destroy()
      modifies this
      ensures Model() == BattleRoyaleSpec.Destroy(old(Model()))
    {
      localEngine := None;
      if gameState == Matchmaking {
        CancelMatchmaking();
      }
      gameState := Waiting;
    }
  }
}
