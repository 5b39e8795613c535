// The class BattleRoyaleManager of src/game/BattleRoyaleManager.js as a
// value and its handlers as functions on that value: the networked client
// that runs one local engine, forwards its line clears and statistics to
// the server and reacts to the server's events.
//
// The socket is an outbox: the list of calls the manager makes on the
// socket manager, in order. The interface callbacks are a list of
// notices, each made only when the constructor was given that callback.
// The local engine is abstract: the manager only creates it, hands it the
// attacks it receives, asks whether it has one (for the board it would
// send) and drops it. `Date.now()` and `Math.random()` are parameters.
//
// The manager calls `getBoard`, `getCurrentPiece`, `getNextPiece`,
// `getGhostPiece` and `destroy` on its engine, and TetrisEngine defines
// none of them, so each such call throws. The handlers below model the
// calls the source intends, as if the engine had those methods; the
// `…AsWritten` functions model the code as it is, with a flag that says
// it threw.

module BattleRoyaleSpec {
  import opened Wrappers
  import ServerProtocol

  type SocketId = ServerProtocol.SocketId
  type RoomId = ServerProtocol.RoomId

  /** `opponentData`: the server's player record, whose fields it has. */
  type Opponent = ServerProtocol.Player

  /** `ATTACK.linesRequired` of src/game/constants.js. */
  const LinesRequired: int := 1

  /** The statistics sent upstream at most once per this many milliseconds. */
  const StatsInterval: int := 500

  /** The values of `gameState`. */
  datatype Phase = Waiting | Matchmaking | Starting | Playing | Finished

  /** `localPlayerData.username`: the name given, or `Joueur<n>` for the
      number n below 1000 drawn when none is given. */
  datatype Name = Named(text: string) | Generated(n: nat)

  /** `localPlayerData`; its id is null until the socket's id is copied in. */
  datatype LocalPlayer = LocalPlayer(id: Option<SocketId>, username: Name,
                                     score: int, lines: int, level: int, isGameOver: bool)

  /** The local engine as the manager uses it: the attacks handed to it, in order. */
  datatype LocalEngine = LocalEngine(received: seq<int>)

  /** Which of the constructor's callbacks were given; each is checked before it is called. */
  datatype Listeners = Listeners(gameUpdate: bool, gameOver: bool, attackReceived: bool,
                                 opponentUpdate: bool, victory: bool)

  /** The score, lines and level of the game state the local engine reports. */
  datatype LocalStats = LocalStats(score: int, lines: int, level: int)

  /** The data of `handleGameEnd`. A duration the client computes before
      the game has started is NaN, written None. */
  datatype EndReport = EndReport(isWinner: bool, reason: string, duration: Option<int>)

  /** The data of `handleOpponentGameOver`. */
  datatype LossReport = LossReport(opponentName: Option<string>, opponentScore: int, duration: Option<int>)

  /** The server's `Victory` payload, which `handleVictory` passes on. */
  datatype VictoryReport = VictoryReport(opponentName: Option<string>, yourScore: Option<int>,
                                         opponentScore: Option<int>, duration: Option<int>,
                                         reason: Option<string>)

  /** The `type` of a victory notification the manager builds itself:
      `opponent_game_over` or `opponent_disconnect`. */
  datatype VictoryCause = OpponentOut | OpponentLeft

  /** The calls made on the interface callbacks. */
  datatype Notice =
    | EngineUpdate(stats: LocalStats)                                   // onGameUpdate(engine state)
    | Snapshot(phase: Phase, local: LocalPlayer, opponent: Option<Opponent>,
               withEngine: bool)                                        // updateGameState()
    | LocalLoss                                                         // onGameOver()
    | GameOver(isVictory: bool, reason: string, duration: Option<int>,
               local: LocalPlayer, opponent: Option<Opponent>)          // onGameOver(winner, summary)
    | AttackNotice(lines: int)                                          // onAttackReceived
    | OpponentView(board: Option<string>, score: int, lines: int,
                   level: int, isGameOver: bool)                        // onOpponentUpdate
    | VictoryNotice(cause: VictoryCause, opponentName: Option<string>, yourScore: int,
                    opponentScore: Option<int>, duration: Option<int>)  // onVictory
    | Relayed(report: VictoryReport)                                    // onVictory, from the server

  /** The calls made on the socket manager. */
  datatype Upstream =
    | JoinQueue(username: Name)
    | LeaveQueue
    | EnterRoom(roomId: RoomId)                 // joinRoom
    | SendAttack(lines: int, source: Option<SocketId>)
    | SendGameUpdate(playerId: Option<SocketId>, score: int, lines: int, level: int,
                     withBoard: bool, isGameOver: bool)
    | SendGameEnd(playerId: Option<SocketId>, finalScore: int, reason: string, isGameOver: bool)

  /** The manager's fields; `startTime` is `gameStartTime`, unset until
      the local game is initialized. */
  datatype Client = Client(phase: Phase, engine: Option<LocalEngine>, opponent: Option<Opponent>,
                           local: LocalPlayer, pending: seq<int>, lastStatsUpdate: int,
                           startTime: Option<int>, outbox: seq<Upstream>, notices: seq<Notice>,
                           listeners: Listeners)

  /** The local player before anything is known. */
  const NoOne: LocalPlayer := LocalPlayer(None, Named(""), 0, 0, 1, false)

  /** `constructor`: waiting, with no engine, no opponent, nothing pending
      and nothing sent. */
  function NewClient(listeners: Listeners): (c: Client)
    ensures c.phase == Waiting && c.engine.None? && c.opponent.None? && c.local == NoOne
    ensures c.pending == [] && c.lastStatsUpdate == 0 && c.startTime.None?
    ensures c.outbox == [] && c.notices == [] && c.listeners == listeners
  {
    Client(Waiting, None, None, NoOne, [], 0, None, [], [], listeners)
  }

  /** A call on the callback that `given` says exists: the notice is
      added exactly when the callback exists, and nothing else changes. */
  function Tell(c: Client, given: bool, n: Notice): (r: Client)
    ensures r.notices == c.notices + (if given then [n] else [])
    ensures r == c.(notices := r.notices)
  {
    if given then c.(notices := c.notices + [n]) else c
  }

  /** A call on the socket manager: one message at the end of the
      outbox, and nothing else changes. */
  function Send(c: Client, u: Upstream): (r: Client)
    ensures r.outbox == c.outbox + [u]
    ensures r == c.(outbox := r.outbox)
  {
    c.(outbox := c.outbox + [u])
  }

  /** `Date.now() - this.gameStartTime`. */
  function Elapsed(c: Client, now: int): Option<int>
  {
    if c.startTime.Some? then Some(now - c.startTime.value) else None
  }

  /** `updateGameState()`, with the engine reads the source intends: the
      interface, when it listens, is shown the phase, copies of both
      players and whether there is an engine to read; only the notices
      change. */
  function UpdateGameState(c: Client): (r: Client)
    ensures r.notices == c.notices
      + (if c.listeners.gameUpdate then [Snapshot(c.phase, c.local, c.opponent, c.engine.Some?)] else [])
    ensures r == c.(notices := r.notices)
  {
    Tell(c, c.listeners.gameUpdate, Snapshot(c.phase, c.local, c.opponent, c.engine.Some?))
  }

  /** `updateGameState()` as written: with an engine, the call to
      `getBoard` throws before anything is shown; the flag says it threw. */
  function UpdateGameStateAsWritten(c: Client): (r: (Client, bool))
    ensures r.1 <==> c.engine.Some?
    ensures r.1 ==> r.0 == c
    ensures !r.1 ==> r.0 == UpdateGameState(c)
  {
    if c.engine.Some? then (c, true) else (UpdateGameState(c), false)
  }

  /** `sendStatsUpdate()`: the local statistics, with the board when an engine exists. */
  function StatsMessage(c: Client): Upstream
  {
    SendGameUpdate(c.local.id, c.local.score, c.local.lines, c.local.level, c.engine.Some?, c.local.isGameOver)
  }

  // ---------------------------------------------------------------------
  // The local engine's callbacks

  /** `handleLocalGameUpdate(gameState)` at time `now`: the statistics are
      copied into the local player; they are sent upstream, carrying the
      copied values, exactly when more than 500 ms have passed since the
      last send, which then moves to `now`; the engine's state goes on to
      the interface. Nothing else changes. */
  function LocalGameUpdate(c: Client, s: LocalStats, now: int): (r: Client)
    ensures r.local == c.local.(score := s.score, lines := s.lines, level := s.level)
    ensures now - c.lastStatsUpdate > StatsInterval ==>
      r.lastStatsUpdate == now && r.outbox == c.outbox + [StatsMessage(r)]
    ensures now - c.lastStatsUpdate <= StatsInterval ==>
      r.lastStatsUpdate == c.lastStatsUpdate && r.outbox == c.outbox
    ensures r.notices == c.notices + (if c.listeners.gameUpdate then [EngineUpdate(s)] else [])
    ensures r == c.(local := r.local, lastStatsUpdate := r.lastStatsUpdate, outbox := r.outbox, notices := r.notices)
  {
    var copied := c.(local := c.local.(score := s.score, lines := s.lines, level := s.level));
    var sent := if now - copied.lastStatsUpdate > StatsInterval
      then Send(copied, StatsMessage(copied)).(lastStatsUpdate := now)
      else copied;
    Tell(sent, c.listeners.gameUpdate, EngineUpdate(s))
  }

  /** `handleLocalGameUpdate(gameState)` as written: when the statistics
      are due and there is an engine, `sendStatsUpdate` throws at
      `getBoard`, after the statistics were copied, so nothing is sent,
      the clock stays and the interface is not told. */
  function LocalGameUpdateAsWritten(c: Client, s: LocalStats, now: int): (r: (Client, bool))
    ensures r.1 <==> now - c.lastStatsUpdate > StatsInterval && c.engine.Some?
    ensures r.1 ==> r.0 == c.(local := c.local.(score := s.score, lines := s.lines, level := s.level))
    ensures !r.1 ==> r.0 == LocalGameUpdate(c, s, now)
  {
    if now - c.lastStatsUpdate > StatsInterval && c.engine.Some?
    then (c.(local := c.local.(score := s.score, lines := s.lines, level := s.level)), true)
    else (LocalGameUpdate(c, s, now), false)
  }

  /** `handleLocalGameOver()`: the local player is out, the game over, and
      the server told with the final score and reason `game_over`. */
  function LocalGameOver(c: Client): (r: Client)
    ensures r.local == c.local.(isGameOver := true) && r.phase == Finished
    ensures r.outbox == c.outbox + [SendGameEnd(c.local.id, c.local.score, "game_over", true)]
    ensures r.notices == c.notices + (if c.listeners.gameOver then [LocalLoss] else [])
    ensures r == c.(local := r.local, phase := Finished, outbox := r.outbox, notices := r.notices)
  {
    var lost := c.(local := c.local.(isGameOver := true), phase := Finished);
    var told := Send(lost, SendGameEnd(lost.local.id, lost.local.score, "game_over", true));
    Tell(told, c.listeners.gameOver, LocalLoss)
  }

  /** `handleLocalLinesClear(lines)`: exactly one attack carrying the raw
      count goes upstream when at least `linesRequired` lines were cleared,
      and nothing at all happens otherwise. */
  function LocalLinesClear(c: Client, lines: int): (r: Client)
    ensures lines >= LinesRequired ==> r == c.(outbox := c.outbox + [SendAttack(lines, c.local.id)])
    ensures lines < LinesRequired ==> r == c
  {
    if lines >= LinesRequired then Send(c, SendAttack(lines, c.local.id)) else c
  }

  // ---------------------------------------------------------------------
  // Matchmaking and the server's events

  /** The name `startMatchmaking` records: the one given unless it is
      empty, else `Joueur` and the draw `roll` reduced below 1000. */
  function ChosenName(username: string, roll: nat): (n: Name)
    ensures username != "" ==> n == Named(username)
    ensures username == "" ==> n.Generated? && n.n < 1000
  {
    if username == "" then Generated(roll % 1000) else Named(username)
  }

  /** `startMatchmaking(username)`: refused, with nothing changed, when the
      socket is not connected; otherwise matchmaking, with the socket's id
      and the chosen name recorded, `joinQueue` sent and the interface told. */
  function StartMatchmaking(c: Client, connected: bool, socketId: Option<SocketId>,
                            username: string, roll: nat): (r: (Client, bool))
    ensures r.1 == connected
    ensures !connected ==> r.0 == c
    ensures connected ==>
      (r.0.phase == Matchmaking
       && r.0.local == c.local.(username := ChosenName(username, roll), id := socketId)
       && r.0.outbox == c.outbox + [JoinQueue(ChosenName(username, roll))]
       && r.0.notices == c.notices
          + (if c.listeners.gameUpdate then [Snapshot(Matchmaking, r.0.local, c.opponent, c.engine.Some?)] else [])
       && r.0 == c.(phase := Matchmaking, local := r.0.local, outbox := r.0.outbox, notices := r.0.notices))
  {
    if !connected then (c, false)
    else
      var named := c.(phase := Matchmaking, local := c.local.(username := ChosenName(username, roll)));
      var joined := named.(local := named.local.(id := socketId));
      (UpdateGameState(Send(joined, JoinQueue(joined.local.username))), true)
  }

  /** `cancelMatchmaking()`: only while matchmaking, which it leaves for
      waiting with `leaveQueue` sent; otherwise nothing changes. */
  function CancelMatchmaking(c: Client): (r: Client)
    ensures c.phase != Matchmaking ==> r == c
    ensures c.phase == Matchmaking ==>
      (r.phase == Waiting && r.outbox == c.outbox + [LeaveQueue]
       && r.notices == c.notices
          + (if c.listeners.gameUpdate then [Snapshot(Waiting, c.local, c.opponent, c.engine.Some?)] else [])
       && r == c.(phase := Waiting, outbox := r.outbox, notices := r.notices))
  {
    if c.phase == Matchmaking then UpdateGameState(Send(c, LeaveQueue).(phase := Waiting)) else c
  }

  /** `joinRoom(roomId)`: the socket's id copied in, the room joined,
      playing, and the interface shown the new phase; nothing else changes. */
  function JoinRoom(c: Client, roomId: RoomId, socketId: Option<SocketId>): (r: Client)
    ensures r.phase == Playing && r.local == c.local.(id := socketId)
    ensures r.outbox == c.outbox + [EnterRoom(roomId)]
    ensures r.notices == c.notices
      + (if c.listeners.gameUpdate then [Snapshot(Playing, r.local, c.opponent, c.engine.Some?)] else [])
    ensures r == c.(phase := Playing, local := r.local, outbox := r.outbox, notices := r.notices)
  {
    var identified := c.(local := c.local.(id := socketId));
    UpdateGameState(Send(identified, EnterRoom(roomId)).(phase := Playing))
  }

  /** `handleMatchFound(data)`: the opponent recorded with score and lines
      zero, level 1 and not out, and the match starting. */
  function MatchFound(c: Client, opponent: ServerProtocol.RosterEntry): (r: Client)
    ensures r.opponent == Some(ServerProtocol.Player(opponent.id, opponent.username, 0, 0, 1, false))
    ensures r.phase == Starting
    ensures r.notices == c.notices
      + (if c.listeners.gameUpdate then [Snapshot(Starting, c.local, r.opponent, c.engine.Some?)] else [])
    ensures r == c.(opponent := r.opponent, phase := Starting, notices := r.notices)
  {
    UpdateGameState(c.(opponent := Some(ServerProtocol.NewPlayer(opponent.id, opponent.username)),
                       phase := Starting))
  }

  /** `handleMatchFound(data)` as written: the opponent and the phase are
      recorded, and the closing `updateGameState` throws when there is an
      engine. */
  function MatchFoundAsWritten(c: Client, opponent: ServerProtocol.RosterEntry): (r: (Client, bool))
    ensures r.1 <==> c.engine.Some?
    ensures r.1 ==> r.0 == c.(opponent := Some(ServerProtocol.NewPlayer(opponent.id, opponent.username)),
                              phase := Starting)
    ensures !r.1 ==> r.0 == MatchFound(c, opponent)
  {
    UpdateGameStateAsWritten(c.(opponent := Some(ServerProtocol.NewPlayer(opponent.id, opponent.username)),
                                phase := Starting))
  }

  /** The state `init()` of a new TetrisEngine reports: no score, no
      lines, level 1. */
  const FirstStats: LocalStats := LocalStats(0, 0, 1)

  /** `new TetrisEngine(…)` inside the manager at time `now`: the engine's
      `init()` reports its first state through `handleLocalGameUpdate`
      while the field still holds the engine there was before, if any;
      then the new engine is stored. */
  function CreateEngine(c: Client, now: int): (r: Client)
    ensures r.engine == Some(LocalEngine([]))
    ensures r.local == c.local.(score := 0, lines := 0, level := 1)
    ensures now - c.lastStatsUpdate > StatsInterval ==>
      r.lastStatsUpdate == now
      && r.outbox == c.outbox + [SendGameUpdate(c.local.id, 0, 0, 1, c.engine.Some?, c.local.isGameOver)]
    ensures now - c.lastStatsUpdate <= StatsInterval ==>
      r.lastStatsUpdate == c.lastStatsUpdate && r.outbox == c.outbox
    ensures r.notices == c.notices + (if c.listeners.gameUpdate then [EngineUpdate(FirstStats)] else [])
    ensures r == c.(engine := r.engine, local := r.local, lastStatsUpdate := r.lastStatsUpdate,
                    outbox := r.outbox, notices := r.notices)
  {
    LocalGameUpdate(c, FirstStats, now).(engine := Some(LocalEngine([])))
  }

  /** `initializeLocalEngine()` at time `now`: a new engine, which has
      reported its first state, replacing any there was. */
  function InitializeLocalEngine(c: Client, now: int): (r: (Client, LocalEngine))
    ensures r.1.received == [] && r.0.engine == Some(r.1)
    ensures r.0 == CreateEngine(c, now)
  {
    (CreateEngine(c, now), LocalEngine([]))
  }

  /** `initializeLocalEngine()` as written: when an engine is already in
      place and the statistics are due, the first report of the new engine
      throws inside its constructor, so the new engine is never stored. */
  function InitializeLocalEngineAsWritten(c: Client, now: int): (r: (Client, bool))
    ensures r.1 <==> now - c.lastStatsUpdate > StatsInterval && c.engine.Some?
    ensures r.1 ==> r.0 == c.(local := c.local.(score := 0, lines := 0, level := 1))
    ensures !r.1 ==> r.0 == InitializeLocalEngine(c, now).0
  {
    var first := LocalGameUpdateAsWritten(c, FirstStats, now);
    if first.1 then first else (first.0.(engine := Some(LocalEngine([]))), false)
  }

  /** `initializeLocalGame()` at time `now`: an engine is created only when
      there is none, reporting its first state with no board to send, and
      the game's start time is `now`. (Its `startGame` call is guarded by a
      test that TetrisEngine fails, so it does nothing.) */
  function InitializeLocalGame(c: Client, now: int): (r: Client)
    ensures c.engine.Some? ==> r == c.(startTime := Some(now))
    ensures c.engine.None? ==> r == CreateEngine(c, now).(startTime := Some(now))
    ensures r.engine.Some? && r.startTime == Some(now)
  {
    var made := if c.engine.None? then CreateEngine(c, now) else c;
    made.(startTime := Some(now))
  }

  /** `handleGameStart(data)` at time `now`: the local game initialized,
      playing, and the interface shown the new phase with an engine. */
  function GameStart(c: Client, now: int): (r: Client)
    ensures r.phase == Playing && r.engine.Some? && r.startTime == Some(now)
    ensures c.engine.Some? ==> r.engine == c.engine
    ensures var ready := InitializeLocalGame(c, now);
      r.notices == ready.notices
        + (if c.listeners.gameUpdate then [Snapshot(Playing, ready.local, c.opponent, true)] else [])
      && r == ready.(phase := Playing, notices := r.notices)
  {
    UpdateGameState(InitializeLocalGame(c, now).(phase := Playing))
  }

  /** `handleGameStart(data)` as written: once the local game is
      initialized there is always an engine, so the closing
      `updateGameState` always throws. */
  function GameStartAsWritten(c: Client, now: int): (r: (Client, bool))
    ensures r == (InitializeLocalGame(c, now).(phase := Playing), true)
  {
    UpdateGameStateAsWritten(InitializeLocalGame(c, now).(phase := Playing))
  }

  /** `handleGameEnd(data)`: finished, the engine dropped, and the
      interface told the outcome, a victory exactly when the server says
      this player won. */
  function GameEnd(c: Client, d: EndReport): (r: Client)
    ensures r.phase == Finished && r.engine.None?
    ensures r.notices == c.notices
      + (if c.listeners.gameOver then [GameOver(d.isWinner, d.reason, d.duration, c.local, c.opponent)] else [])
    ensures r == c.(phase := Finished, engine := None, notices := r.notices)
  {
    var ended := c.(phase := Finished, engine := None);
    Tell(ended, c.listeners.gameOver, GameOver(d.isWinner, d.reason, d.duration, c.local, c.opponent))
  }

  /** `handleGameEnd(data)` as written: with an engine, the game is
      marked finished and then the engine's `destroy` throws, so the
      engine stays and the interface is not told. */
  function GameEndAsWritten(c: Client, d: EndReport): (r: (Client, bool))
    ensures r.1 <==> c.engine.Some?
    ensures r.1 ==> r.0 == c.(phase := Finished)
    ensures !r.1 ==> r.0 == GameEnd(c, d)
  {
    if c.engine.Some? then (c.(phase := Finished), true) else (GameEnd(c, d), false)
  }

  /** `handleOpponentGameOver(data)`: the opponent, when known, is out, and
      a victory notice goes to the interface. */
  function OpponentGameOver(c: Client, loss: LossReport): (r: Client)
    ensures c.opponent.None? ==> r.opponent.None?
    ensures c.opponent.Some? ==> r.opponent == Some(c.opponent.value.(isGameOver := true))
    ensures r.notices == c.notices + (if c.listeners.victory then
      [VictoryNotice(OpponentOut, loss.opponentName, c.local.score, Some(loss.opponentScore), loss.duration)] else [])
    ensures r == c.(opponent := r.opponent, notices := r.notices)
  {
    var marked := if c.opponent.Some? then c.(opponent := Some(c.opponent.value.(isGameOver := true))) else c;
    Tell(marked, c.listeners.victory,
         VictoryNotice(OpponentOut, loss.opponentName, c.local.score, Some(loss.opponentScore), loss.duration))
  }

  /** `handleVictory(data)`: the server's victory passed to the
      interface when it listens; the game itself is left as it was (the
      game ends with the server's `gameEnd`). */
  function Victory(c: Client, report: VictoryReport): (r: Client)
    ensures r.notices == c.notices + (if c.listeners.victory then [Relayed(report)] else [])
    ensures r == c.(notices := r.notices)
  {
    Tell(c, c.listeners.victory, Relayed(report))
  }

  /** `handleAttackReceived(lines)`: with an engine, while playing, the
      attack goes to the engine; otherwise it is stored in
      `pendingAttacks` and the engine is left as it was. The interface is
      told either way. */
  function AttackReceived(c: Client, lines: int): (r: Client)
    ensures c.engine.Some? && c.phase == Playing ==>
      r.engine == Some(LocalEngine(c.engine.value.received + [lines])) && r.pending == c.pending
    ensures !(c.engine.Some? && c.phase == Playing) ==>
      r.engine == c.engine && r.pending == c.pending + [lines]
    ensures r.notices == c.notices + (if c.listeners.attackReceived then [AttackNotice(lines)] else [])
    ensures r == c.(engine := r.engine, pending := r.pending, notices := r.notices)
  {
    var routed := if c.engine.Some? && c.phase == Playing
      then c.(engine := Some(LocalEngine(c.engine.value.received + [lines])))
      else c.(pending := c.pending + [lines]);
    Tell(routed, c.listeners.attackReceived, AttackNotice(lines))
  }

  /** `handleAttackReceived(lines)` as written: with an engine, while
      playing, it calls `receiveAttack`, which TetrisEngine does not
      define, so the call throws before anything is stored or told; the
      flag says it threw. */
  function AttackReceivedAsWritten(c: Client, lines: int): (r: (Client, bool))
    ensures r.1 <==> c.engine.Some? && c.phase == Playing
    ensures !r.1 ==> r.0 == AttackReceived(c, lines)
  {
    if c.engine.Some? && c.phase == Playing then (c, true) else (AttackReceived(c, lines), false)
  }

  /** `value || fallback` on a number: a missing or zero value keeps the fallback. */
  function Or(value: Option<int>, fallback: int): (r: int)
    ensures value.Some? && value.value != 0 ==> r == value.value
    ensures value.None? || value.value == 0 ==> r == fallback
  {
    if value.Some? && value.value != 0 then value.value else fallback
  }

  /** The opponent's record after `handleOpponentMove` copied what `data` carries. */
  function Moved(o: Opponent, data: ServerProtocol.ClientStats): Opponent
  {
    o.(score := Or(data.score, o.score), lines := Or(data.lines, o.lines),
       level := Or(data.level, o.level), isGameOver := data.isGameOver == Some(true) || o.isGameOver)
  }

  /** `handleOpponentMove(data)` from `sender` at time `now`: only data
      about the recorded opponent counts; its present, non-zero fields
      replace the recorded ones, a game over sticks, and a game over
      reported while the local player is still in is a victory. The
      interface then sees the opponent as recorded. */
  function OpponentMove(c: Client, sender: SocketId, data: ServerProtocol.ClientStats, now: int): (r: Client)
    ensures c.opponent.None? || sender != c.opponent.value.id ==> r == c
    ensures c.opponent.Some? && sender == c.opponent.value.id ==>
      (var o := Moved(c.opponent.value, data);
       var over := data.isGameOver == Some(true) && !c.local.isGameOver;
       r.opponent == Some(o)
       && r.notices == c.notices
          + (if over && c.listeners.victory
             then [VictoryNotice(OpponentOut, Some(o.username), c.local.score, Some(o.score), Elapsed(c, now))]
             else [])
          + (if c.listeners.opponentUpdate then [OpponentView(data.board, o.score, o.lines, o.level, o.isGameOver)] else [])
       && r == c.(opponent := Some(o), notices := r.notices))
  {
    if c.opponent.None? || sender != c.opponent.value.id then c
    else
      var o := Moved(c.opponent.value, data);
      var moved := c.(opponent := Some(o));
      var judged := if data.isGameOver == Some(true) && !c.local.isGameOver
        then OpponentGameOver(moved, LossReport(Some(o.username), o.score, Elapsed(c, now)))
        else moved;
      var shown := judged.opponent.value;
      Tell(judged, c.listeners.opponentUpdate,
           OpponentView(data.board, shown.score, shown.lines, shown.level, shown.isGameOver))
  }

  /** `handleOpponentDisconnect()` at time `now`: only while playing, a
      victory notice and then the end of the game as its winner. */
  function OpponentDisconnect(c: Client, now: int): (r: Client)
    ensures c.phase != Playing ==> r == c
    ensures c.phase == Playing ==> r.phase == Finished && r.engine.None?
    ensures c.phase == Playing ==>
      (var name := if c.opponent.Some? then Some(c.opponent.value.username) else None;
       r.notices == c.notices
         + (if c.listeners.victory
            then [VictoryNotice(OpponentLeft, name, c.local.score, None, Elapsed(c, now))] else [])
         + (if c.listeners.gameOver
            then [GameOver(true, "opponent_disconnect", Elapsed(c, now), c.local, c.opponent)] else []))
    ensures c.phase == Playing ==> r == c.(phase := Finished, engine := None, notices := r.notices)
  {
    if c.phase != Playing then c
    else
      var name := if c.opponent.Some? then Some(c.opponent.value.username) else None;
      var told := Tell(c, c.listeners.victory,
                       VictoryNotice(OpponentLeft, name, c.local.score, None, Elapsed(c, now)));
      GameEnd(told, EndReport(true, "opponent_disconnect", Elapsed(c, now)))
  }

  /** `handleOpponentDisconnect()` as written: while playing, the victory
      notice is made and then `handleGameEnd` throws when there is an
      engine. */
  function OpponentDisconnectAsWritten(c: Client, now: int): (r: (Client, bool))
    ensures r.1 <==> c.phase == Playing && c.engine.Some?
    ensures !r.1 ==> r.0 == OpponentDisconnect(c, now)
    ensures r.1 ==>
      (var name := if c.opponent.Some? then Some(c.opponent.value.username) else None;
       r.0.notices == c.notices
         + (if c.listeners.victory
            then [VictoryNotice(OpponentLeft, name, c.local.score, None, Elapsed(c, now))] else []))
    ensures r.1 ==> r.0 == c.(phase := Finished, notices := r.0.notices)
  {
    if c.phase != Playing then (c, false)
    else
      var name := if c.opponent.Some? then Some(c.opponent.value.username) else None;
      var told := Tell(c, c.listeners.victory,
                       VictoryNotice(OpponentLeft, name, c.local.score, None, Elapsed(c, now)));
      GameEndAsWritten(told, EndReport(true, "opponent_disconnect", Elapsed(c, now)))
  }

  /** `players.find(p => p.id === id)`: the first standing with that id. */
  function FindStanding(players: seq<ServerProtocol.Standing>, id: SocketId): (r: Option<nat>)
    ensures r.Some? ==> (r.value < |players| && players[r.value].id == id
      && forall j :: 0 <= j < r.value ==> players[j].id != id)
    ensures r.None? ==> forall j :: 0 <= j < |players| ==> players[j].id != id
  {
    if |players| == 0 then None
    else if players[0].id == id then Some(0)
    else
      var rest := FindStanding(players[1..], id);
      if rest.None? then None else Some(rest.value + 1)
  }

  /** `handleGameUpdate(data)`: when the server's list has the recorded
      opponent, its first entry with the opponent's id replaces the
      record and the interface is told; otherwise nothing changes. */
  function GameUpdate(c: Client, players: Option<seq<ServerProtocol.Standing>>): (r: Client)
    ensures players.None? || c.opponent.None? ==> r == c
    ensures (players.Some? && c.opponent.Some?
             && forall j :: 0 <= j < |players.value| ==> players.value[j].id != c.opponent.value.id) ==> r == c
    ensures players.Some? && c.opponent.Some? && FindStanding(players.value, c.opponent.value.id).Some? ==>
      (var s := players.value[FindStanding(players.value, c.opponent.value.id).value];
       r.opponent == Some(ServerProtocol.Player(s.id, s.username, s.score, s.lines, s.level, s.isGameOver))
       && r.notices == c.notices
          + (if c.listeners.gameUpdate then [Snapshot(c.phase, c.local, r.opponent, c.engine.Some?)] else [])
       && r == c.(opponent := r.opponent, notices := r.notices))
  {
    if players.None? || c.opponent.None? then c
    else
      var found := FindStanding(players.value, c.opponent.value.id);
      if found.None? then c
      else
        var s := players.value[found.value];
        UpdateGameState(c.(opponent := Some(ServerProtocol.Player(s.id, s.username, s.score, s.lines, s.level, s.isGameOver))))
  }

  /** `destroy()`: the engine dropped, matchmaking cancelled when it was
      under way, and back to waiting. */
  function Destroy(c: Client): (r: Client)
    ensures r.phase == Waiting && r.engine.None?
    ensures c.phase == Matchmaking ==> r.outbox == c.outbox + [LeaveQueue]
    ensures c.phase != Matchmaking ==> r == c.(engine := None, phase := Waiting)
  {
    var dropped := c.(engine := None);
    var cancelled := if dropped.phase == Matchmaking then CancelMatchmaking(dropped) else dropped;
    cancelled.(phase := Waiting)
  }

  /** `destroy()` as written: with an engine, the engine's `destroy`
      throws first, so nothing changes. */
  function DestroyAsWritten(c: Client): (r: (Client, bool))
    ensures r.1 <==> c.engine.Some?
    ensures r.1 ==> r.0 == c
    ensures !r.1 ==> r.0 == Destroy(c)
  {
    if c.engine.Some? then (c, true) else (Destroy(c), false)
  }

  // ---------------------------------------------------------------------
  // Runs of events

  /** Everything that reaches the manager: the engine's callbacks, the
      interface's calls and the server's events, with their data. */
  datatype Event =
    | LocalUpdate(stats: LocalStats, now: int)
    | LocalOver
    | LocalClear(lines: int)
    | Matchmake(connected: bool, socketId: Option<SocketId>, username: string, roll: nat)
    | Cancel
    | Join(roomId: RoomId, socketId: Option<SocketId>)
    | Found(opponent: ServerProtocol.RosterEntry)
    | NewEngine(now: int)
    | Start(now: int)
    | End(report: EndReport)
    | OpponentOver(loss: LossReport)
    | Announce(victory: VictoryReport)
    | Attack(lines: int)
    | Move(sender: SocketId, data: ServerProtocol.ClientStats, now: int)
    | Disconnect(now: int)
    | Standings(players: Option<seq<ServerProtocol.Standing>>)
    | Teardown

  /** The handler each event runs. */
  function Step(c: Client, e: Event): Client
  {
    match e
    case LocalUpdate(stats, now) => LocalGameUpdate(c, stats, now)
    case LocalOver => LocalGameOver(c)
    case LocalClear(lines) => LocalLinesClear(c, lines)
    case Matchmake(connected, socketId, username, roll) => StartMatchmaking(c, connected, socketId, username, roll).0
    case Cancel => CancelMatchmaking(c)
    case Join(roomId, socketId) => JoinRoom(c, roomId, socketId)
    case Found(opponent) => MatchFound(c, opponent)
    case NewEngine(now) => InitializeLocalEngine(c, now).0
    case Start(now) => GameStart(c, now)
    case End(report) => GameEnd(c, report)
    case OpponentOver(loss) => OpponentGameOver(c, loss)
    case Announce(victory) => Victory(c, victory)
    case Attack(lines) => AttackReceived(c, lines)
    case Move(sender, data, now) => OpponentMove(c, sender, data, now)
    case Disconnect(now) => OpponentDisconnect(c, now)
    case Standings(players) => GameUpdate(c, players)
    case Teardown => Destroy(c)
  }

  /** The events handled one after the other. */
  function Run(c: Client, es: seq<Event>): Client
    decreases |es|
  {
    if es == [] then c else Run(Step(c, es[0]), es[1..])
  }

  /** The event sends the statistics upstream: an update of the local
      engine, or the first report of an engine being created, when more
      than 500 ms have passed since the last send. */
  predicate SendsStats(c: Client, e: Event)
  {
    (e.LocalUpdate? || e.NewEngine? || (e.Start? && c.engine.None?))
    && e.now - c.lastStatsUpdate > StatsInterval
  }

  /** The times at which a run sends the statistics upstream, in order. */
  function SendTimes(c: Client, es: seq<Event>): seq<int>
    decreases |es|
  {
    if es == [] then []
    else if SendsStats(c, es[0]) then [es[0].now] + SendTimes(Step(c, es[0]), es[1..])
    else SendTimes(Step(c, es[0]), es[1..])
  }

  /** Only an event that sends the statistics moves their clock, which
      then reads the event's time. */
  lemma StepClock(c: Client, e: Event)
    ensures SendsStats(c, e) ==> Step(c, e).lastStatsUpdate == e.now
    ensures !SendsStats(c, e) ==> Step(c, e).lastStatsUpdate == c.lastStatsUpdate
  {
  }

  /** The throttle: in any run, the first send of the statistics comes
      more than 500 ms after the last one before the run, and each later
      send more than 500 ms after the one before it, whatever else
      happens in between and whatever order the times come in. */
  lemma {:induction false} ThrottleSpaced(c: Client, es: seq<Event>)
    ensures var ts := SendTimes(c, es);
      (|ts| > 0 ==> ts[0] - c.lastStatsUpdate > StatsInterval)
      && forall i :: 0 <= i < |ts| - 1 ==> ts[i + 1] - ts[i] > StatsInterval
    decreases |es|
  {
    if es != [] {
      var next := Step(c, es[0]);
      StepClock(c, es[0]);
      ThrottleSpaced(next, es[1..]);
      var rest := SendTimes(next, es[1..]);
      if SendsStats(c, es[0]) {
        assert SendTimes(c, es) == [es[0].now] + rest;
        SpacedCons(es[0].now, c.lastStatsUpdate, rest);
      }
    }
  }

  /** A time more than 500 ms after `last`, put before times spaced more
      than 500 ms apart starting more than 500 ms after it, keeps them
      spaced. */
  lemma SpacedCons(t: int, last: int, rest: seq<int>)
    requires t - last > StatsInterval
    requires (|rest| > 0 ==> rest[0] - t > StatsInterval)
      && forall i :: 0 <= i < |rest| - 1 ==> rest[i + 1] - rest[i] > StatsInterval
    ensures var ts := [t] + rest;
      (|ts| > 0 ==> ts[0] - last > StatsInterval)
      && forall i :: 0 <= i < |ts| - 1 ==> ts[i + 1] - ts[i] > StatsInterval
  {
    var ts := [t] + rest;
    forall i | 0 <= i < |ts| - 1
      ensures ts[i + 1] - ts[i] > StatsInterval
    {
      if i > 0 {
        assert ts[i + 1] == rest[i] && ts[i] == rest[i - 1];
      }
    }
  }

  /** The statistics messages in an outbox. */
  function StatsSent(out: seq<Upstream>): nat
    decreases |out|
  {
    if out == [] then 0 else StatsSent(out[..|out| - 1]) + (if out[|out| - 1].SendGameUpdate? then 1 else 0)
  }

  lemma {:induction false} StatsSentAppend(a: seq<Upstream>, b: seq<Upstream>)
    ensures StatsSent(a + b) == StatsSent(a) + StatsSent(b)
    decreases |b|
  {
    if b == [] {
      assert a + b == a;
    } else {
      assert (a + b)[..|a + b| - 1] == a + b[..|b| - 1];
      assert (a + b)[|a + b| - 1] == b[|b| - 1];
      StatsSentAppend(a, b[..|b| - 1]);
    }
  }

  /** An event sends its outbox messages at the end of the outbox, and a
      statistics message exactly when it sends the statistics. */
  lemma StepSends(c: Client, e: Event)
    ensures var r := Step(c, e);
      c.outbox <= r.outbox
      && StatsSent(r.outbox[|c.outbox|..]) == if SendsStats(c, e) then 1 else 0
  {
    if e.LocalUpdate? || e.NewEngine? || e.Start? {
      EngineEventSends(c, e);
    } else if e.Matchmake? || e.Join? || e.Cancel? || e.Teardown? {
      ClientCallSends(c, e);
    } else if e.LocalOver? || e.LocalClear? {
      LocalOutcomeSends(c, e);
    } else {
      ServerEventSends(c, e);
    }
  }

  /** `StepSends` for the engine's updates and the events that create an engine. */
  lemma EngineEventSends(c: Client, e: Event)
    requires e.LocalUpdate? || e.NewEngine? || e.Start?
    ensures var r := Step(c, e);
      c.outbox <= r.outbox
      && StatsSent(r.outbox[|c.outbox|..]) == if SendsStats(c, e) then 1 else 0
  {
    var r := Step(c, e);
    var sends := SendsStats(c, e);
    if !sends {
      Appended(c.outbox, r.outbox, [], sends);
    } else if e.LocalUpdate? {
      Appended(c.outbox, r.outbox, [StatsMessage(r)], sends);
    } else if e.NewEngine? {
      Appended(c.outbox, r.outbox, [SendGameUpdate(c.local.id, 0, 0, 1, c.engine.Some?, c.local.isGameOver)], sends);
    } else {
      Appended(c.outbox, r.outbox, [SendGameUpdate(c.local.id, 0, 0, 1, false, c.local.isGameOver)], sends);
    }
  }

  /** `StepSends` for the interface's calls on the manager. */
  lemma ClientCallSends(c: Client, e: Event)
    requires e.Matchmake? || e.Join? || e.Cancel? || e.Teardown?
    ensures var r := Step(c, e);
      c.outbox <= r.outbox
      && StatsSent(r.outbox[|c.outbox|..]) == if SendsStats(c, e) then 1 else 0
  {
    var r := Step(c, e);
    if e.Matchmake? {
      Appended(c.outbox, r.outbox, if e.connected then [JoinQueue(ChosenName(e.username, e.roll))] else [], false);
    } else if e.Join? {
      Appended(c.outbox, r.outbox, [EnterRoom(e.roomId)], false);
    } else {
      Appended(c.outbox, r.outbox, if c.phase == Matchmaking then [LeaveQueue] else [], false);
    }
  }

  /** `StepSends` for the local player's loss and line clears. */
  lemma LocalOutcomeSends(c: Client, e: Event)
    requires e.LocalOver? || e.LocalClear?
    ensures var r := Step(c, e);
      c.outbox <= r.outbox
      && StatsSent(r.outbox[|c.outbox|..]) == if SendsStats(c, e) then 1 else 0
  {
    var r := Step(c, e);
    if e.LocalOver? {
      Appended(c.outbox, r.outbox, [SendGameEnd(c.local.id, c.local.score, "game_over", true)], false);
    } else {
      Appended(c.outbox, r.outbox, if e.lines >= LinesRequired then [SendAttack(e.lines, c.local.id)] else [], false);
    }
  }

  /** `StepSends` for the server's events, which send nothing upstream. */
  lemma ServerEventSends(c: Client, e: Event)
    requires !(e.LocalUpdate? || e.NewEngine? || e.Start? || e.Matchmake? || e.Join? || e.Cancel? || e.Teardown?
               || e.LocalOver? || e.LocalClear?)
    ensures var r := Step(c, e);
      c.outbox <= r.outbox
      && StatsSent(r.outbox[|c.outbox|..]) == if SendsStats(c, e) then 1 else 0
  {
    Appended(c.outbox, Step(c, e).outbox, [], false);
  }

  /** An outbox extended by at most one statistics message, which is there
      exactly when `sends`. */
  lemma Appended(before: seq<Upstream>, after: seq<Upstream>, added: seq<Upstream>, sends: bool)
    requires after == before + added
    requires sends ==> |added| == 1 && added[0].SendGameUpdate?
    requires !sends ==> forall k :: 0 <= k < |added| ==> !added[k].SendGameUpdate?
    requires |added| <= 1
    ensures before <= after && StatsSent(after[|before|..]) == if sends then 1 else 0
  {
    assert after[|before|..] == added;
    if added != [] {
      assert added[..0] == [];
    }
  }

  /** The statistics go upstream once for each of a run's send times and
      at no other point; what was sent before the run stays. */
  lemma {:induction false} StatsSentAtSendTimes(c: Client, es: seq<Event>)
    ensures c.outbox <= Run(c, es).outbox
    ensures StatsSent(Run(c, es).outbox) == StatsSent(c.outbox) + |SendTimes(c, es)|
    decreases |es|
  {
    if es != [] {
      var next := Step(c, es[0]);
      StepSends(c, es[0]);
      StatsSentAtSendTimes(next, es[1..]);
      assert next.outbox == c.outbox + next.outbox[|c.outbox|..];
      StatsSentAppend(c.outbox, next.outbox[|c.outbox|..]);
    }
  }

  /** No handler takes anything out of `pendingAttacks`: what is stored
      there before a run is still there, in order, after it (the stored
      attacks are never replayed into the engine). */
  lemma {:induction false} PendingNeverDrained(c: Client, es: seq<Event>)
    ensures c.pending <= Run(c, es).pending
    decreases |es|
  {
    if es != [] {
      var next := Step(c, es[0]);
      assert c.pending <= next.pending;
      PendingNeverDrained(next, es[1..]);
    }
  }

  /** A second disconnect of the opponent changes nothing: the first one
      ended the game. */
  lemma DisconnectOnce(c: Client, now: int, later: int)
    ensures var once := OpponentDisconnect(c, now);
      OpponentDisconnect(once, later) == once
  {
  }

  /** While playing, the opponent's game over followed by its disconnect
      makes two victory notices: the game over leaves the game playing,
      so the disconnect still counts as a win. */
  lemma OverThenDisconnect(c: Client, loss: LossReport, now: int)
    requires c.phase == Playing && c.listeners.victory
    ensures var r := OpponentDisconnect(OpponentGameOver(c, loss), now);
      |r.notices| >= |c.notices| + 2
      && r.notices[|c.notices|].VictoryNotice? && r.notices[|c.notices|].cause == OpponentOut
      && r.notices[|c.notices| + 1].VictoryNotice? && r.notices[|c.notices| + 1].cause == OpponentLeft
      && r.phase == Finished
  {
    var over := OpponentGameOver(c, loss);
    assert over.phase == Playing && |over.notices| == |c.notices| + 1;
  }

  /** `handleAttackReceived` as written, during play: the attack reaches
      neither the engine nor the store nor the interface. */
  lemma AttackLostAsWritten(c: Client, lines: int)
    requires c.engine.Some? && c.phase == Playing
    ensures var r := AttackReceivedAsWritten(c, lines);
      r.1 && r.0.engine == c.engine && r.0.pending == c.pending && r.0.notices == c.notices
  {
  }

  /** With the call the source intends, every attack lands somewhere: in
      the engine during play, in the store otherwise. */
  lemma AttackLands(c: Client, lines: int)
    ensures var r := AttackReceived(c, lines);
      (r.engine.Some? && r.engine.value.received == c.engine.value.received + [lines])
      || r.pending == c.pending + [lines]
  {
  }

  // ---------------------------------------------------------------------
  // The missing engine methods

  /** Local engine updates, each with its time, handled one after the other
      as written; the count is how many of them threw. */
  function LocalUpdatesAsWritten(c: Client, ups: seq<(LocalStats, int)>): (r: (Client, nat))
    ensures r.1 <= |ups|
    decreases |ups|
  {
    if ups == [] then (c, 0)
    else
      var first := LocalGameUpdateAsWritten(c, ups[0].0, ups[0].1);
      var rest := LocalUpdatesAsWritten(first.0, ups[1..]);
      (rest.0, rest.1 + (if first.1 then 1 else 0))
  }

  /** As written, once an engine exists and the statistics are due, they
      are never sent again: every later update throws, so the clock never
      moves, nothing goes upstream and the interface hears nothing. */
  lemma {:induction false} StatsStuckAsWritten(c: Client, ups: seq<(LocalStats, int)>)
    requires c.engine.Some?
    requires forall i :: 0 <= i < |ups| ==> ups[i].1 - c.lastStatsUpdate > StatsInterval
    ensures var r := LocalUpdatesAsWritten(c, ups);
      r.1 == |ups| && r.0.outbox == c.outbox && r.0.notices == c.notices
      && r.0.lastStatsUpdate == c.lastStatsUpdate && r.0.engine == c.engine
    decreases |ups|
  {
    if ups != [] {
      var first := LocalGameUpdateAsWritten(c, ups[0].0, ups[0].1);
      assert first.1 && first.0.lastStatsUpdate == c.lastStatsUpdate;
      forall i | 0 <= i < |ups[1..]|
        ensures ups[1..][i].1 - first.0.lastStatsUpdate > StatsInterval
      {
        assert ups[1..][i] == ups[i + 1];
      }
      StatsStuckAsWritten(first.0, ups[1..]);
    }
  }

  /** As written, the engine is never dropped: a game end keeps it and
      tells the interface nothing, and a later `destroy` throws and keeps
      it too. */
  lemma EngineStuckAsWritten(c: Client, d: EndReport)
    requires c.engine.Some?
    ensures var ended := GameEndAsWritten(c, d);
      ended.1 && ended.0.engine == c.engine && ended.0.phase == Finished && ended.0.notices == c.notices
      && DestroyAsWritten(ended.0) == (ended.0, true)
  {
  }

  /** As written, the interface never sees a match found after the game
      started: the engine created at the start makes `updateGameState`
      throw. */
  lemma MatchUnseenAfterStart(c: Client, now: int, opponent: ServerProtocol.RosterEntry)
    ensures var started := GameStartAsWritten(c, now);
      var found := MatchFoundAsWritten(started.0, opponent);
      started.1 && found.1 && found.0.notices == InitializeLocalGame(c, now).notices
  {
  }

  /** With the engine methods the source intends, the game's start and
      end both reach the interface: the start shows a snapshot with the
      engine, and the end drops the engine and reports the outcome. */
  lemma StartAndEndShown(c: Client, now: int, d: EndReport)
    requires c.listeners.gameUpdate && c.listeners.gameOver
    ensures var started := GameStart(c, now);
      var ended := GameEnd(started, d);
      started.notices[|started.notices| - 1].Snapshot? && started.notices[|started.notices| - 1].withEngine
      && ended.engine.None? && ended.notices[|ended.notices| - 1].GameOver?
  {
  }
}
