# Tetris battle: a Dafny model

This project models the game logic of a two-player falling-block game with
an "attack" mechanic: clearing rows on your own board pushes grey garbage
rows, each with one hole, onto your opponent's board. The logic comes in
five parts, and each is a module (or a pair of modules) here.

- **The simulation engine** (`src/game/TetrisEngine.js`). This is a 10 x 20
  grid plus an active and a next piece.
  - `Board` and `Pieces` define the grid, the seven shapes and the
    clockwise quarter turn.
  - `EngineSpec` states every engine operation as a pure transition on a
    `State` value, and proves the invariants about those transitions.
  - `Tetris.TetrisEngine` is the class whose fields the methods update in
    place. Each method is proved to perform its `EngineSpec` transition.
- **The battle server** (`server/server.js`).
  - `ServerProtocol` holds the players, the messages and the player table.
    The table is a JavaScript `Map` in the source; here it is a sequence
    with distinct ids.
  - `RoomSpec` is the room state machine as pure functions.
  - `ServerRooms` holds the `GameRoom` and `MatchmakingManager` classes.
  - `ServerGateway` holds the per-connection socket handlers.
  - Every `io.to(..).emit(..)` becomes one `(recipient, message)` entry in
    the returned log. The 3-second `setTimeout` becomes the explicit step
    `CountdownElapsed`.
- **The local versus controller** (`src/game/VersusGameManager.js`). This
  runs two engines on one device.
  - `VersusSpec` is the controller as a value, `Manager`, with its
    transitions and the lemmas about them.
  - `Versus.VersusGameManager` is the class, proved against `VersusSpec`.
  - The engines' callbacks are the event sequence each engine operation
    returns. The controller dispatches them in the order the engine makes
    them.
- **The networked client controller** (`src/game/BattleRoyaleManager.js`).
  `BattleRoyaleSpec` and the class `BattleRoyale.BattleRoyaleManager` model
  it.
  - The socket is an outbox of upstream messages.
  - The screen callbacks are a list of notices.
  - `Date.now()` is a parameter.
- **The utilities** (`src/utils/gameUtils.js`). These are in `GameUtils`:
  the score, level, fall-speed and attack tables, garbage lines, the
  top-rows game-over test, the Fisher-Yates shuffle, the check of network
  data and the sliding-window rate limiter.

`Math.random()` is `Randomness.Rng`: a fixed stream of outcomes,
`outcomes: nat -> nat`, consumed one draw at a time. Draw `i` with bound
`n` yields `outcomes(i) % n`, which is `Math.floor(Math.random() * n)`.
`Date.now()` is a parameter (`now`) wherever it is read. `uuidv4()` room
ids are parameters, and the callers supply fresh ones.

Two behaviours of the client that the model states as the code has them:

- **Pending attacks are never replayed.** `handleAttackReceived` stores
  an attack in `pendingAttacks` when the engine is not ready, with the
  comment that it is kept until the engine is
  (`BattleRoyaleManager.js:280-281`). No line of `BattleRoyaleManager.js`
  reads the list: it is only set at :25 and pushed at :281. The lemma
  `BattleRoyaleSpec.PendingNeverDrained` shows that the list only grows
  over any run of events.
- **An opponent's loss can be announced twice.** `handleOpponentMove`
  calls `onVictory` when the opponent reports a game over, and
  `handleOpponentDisconnect` calls it again when that opponent then
  leaves while the game is still `playing`, so the interface gets two
  victory notices for one game. `BattleRoyaleSpec.OverThenDisconnect`
  shows this.

Where the source calls a method that does not exist, the model keeps both
readings. `BattleRoyaleManager.js` calls `getBoard`, `getCurrentPiece`,
`getNextPiece`, `getGhostPiece`, `destroy` and `receiveAttack` on its
engine, and `TetrisEngine` defines none of them. The handlers and the class
make the calls the source intends, and the `…AsWritten` functions of
`BattleRoyaleSpec` model the code as it is, where each such call throws.
The server's disconnect handler is modelled as written
(`ServerGateway.OnDisconnect`), beside the handler it evidently intends
(`ServerGateway.OnDisconnectCorrected`). "## Findings" lists both cases.

## Model

| member | source | states |
|---|---|---|
| Randomness.Draws | src/game/TetrisEngine.js:306 | the n hole columns drawn from position `start`, each below the bound |
| Randomness.Rng.Below | src/game/TetrisEngine.js:97 | `Math.floor(Math.random() * bound)`: a value below `bound`, the next outcome of the stream, one draw consumed |
| Pieces.Spawn | src/game/TetrisEngine.js:95-108 | a new piece has its kind's shape, unrotated, at row 0, horizontally centred: x = 5 − ⌊shape width/2⌋ |
| Pieces.SpawnShapesGood | src/game/TetrisEngine.js:2-61 | every piece shape is a square 3x3 or 4x4 0/1 matrix with at least one filled cell |
| Pieces.RotateAt | src/game/TetrisEngine.js:110-115 | `rotatePiece` is a clockwise quarter turn: new cell (i, j) is old cell (h−1−j, i) |
| Pieces.HalfTurn | src/game/TetrisEngine.js:110-115 | two quarter turns turn a shape upside down |
| Pieces.RotateFourTimes | src/game/TetrisEngine.js:110-115 | four applications of `rotatePiece` give back the original shape |
| Pieces.RotateKeepsGood | src/game/TetrisEngine.js:110-115 | a rotated piece shape is still a good square shape of the same size |
| Board.EmptyBoard | src/game/TetrisEngine.js:85-87 | `createEmptyBoard` gives 20 rows of 10 empty cells, with no full row |
| Board.SurvivorsFacts | src/game/TetrisEngine.js:237-250 | the rows kept by clearing are rows of the board, none of them full; kept rows plus full rows number as many as the board has |
| Board.CompactFacts | src/game/TetrisEngine.js:237-250 | clearing keeps 20 rows of width 10 and leaves no full row; the survivors, in their original order, lie beneath as many new empty rows as were removed |
| Board.CompactIdempotent | src/game/TetrisEngine.js:237-250 | clearing a cleared board changes nothing |
| Board.SurvivorsOfNoFull | src/game/TetrisEngine.js:237-250 | a board with no full row loses no row |
| Board.SurvivorsAppend | src/game/TetrisEngine.js:237-250 | kept rows and the full-row count split over a concatenation |
| Board.FullCountInWindow | src/game/TetrisEngine.js:199-213 | full rows confined to a window of k rows number at most k |
| Board.ClearingRows | src/game/TetrisEngine.js:240-241 | during the scan the board keeps its 20 rows, and the row examined is the next original row from the bottom, or a new empty row |
| Board.ClearingRemove | src/game/TetrisEngine.js:241-245 | splicing out a full row and adding an empty one on top is one more removed row, and the same index is examined next |
| Board.ClearingKeep | src/game/TetrisEngine.js:240-247 | passing a non-full row moves the scan up one row and changes nothing |
| Board.ClearingStart | src/game/TetrisEngine.js:238-240 | the scan starts from the board itself, with nothing removed |
| Board.ClearingEnd | src/game/TetrisEngine.js:247-249 | at the end of the scan the board is the compacted board |
| Board.GarbageRowFacts | src/game/TetrisEngine.js:304-307 | a garbage row has 10 cells, exactly one empty cell at the hole, grey elsewhere, so it is never full |
| Board.PushGarbage | src/game/TetrisEngine.js:302-308 | one `pop` then `unshift` keeps the number of rows |
| Board.AddGarbage | src/game/TetrisEngine.js:301-309 | n garbage rows keep the number of rows |
| Board.PushGarbageShifts | src/game/TetrisEngine.js:302-308 | the new row is on top and every other row moves down by one |
| Board.AddGarbageLayout | src/game/TetrisEngine.js:301-309 | after n ≤ 20 rows the top n rows are the garbage rows, the latest on top, and the old top 20−n rows have moved down by n |
| Board.AddGarbageKeepsInvariant | src/game/TetrisEngine.js:301-309 | garbage keeps the board 20 x 10 and creates no full row |
| EngineSpec.PaintRow | src/game/TetrisEngine.js:261-272 | painting the piece onto a row keeps its width |
| EngineSpec.Overlay | src/game/TetrisEngine.js:257-276 | the board with the piece painted has the board's dimensions |
| EngineSpec.Turns | src/game/TetrisEngine.js:110-115 | n quarter turns keep a square shape square and of the same size |
| EngineSpec.SpawnValid | src/game/TetrisEngine.js:95-108 | a spawned piece satisfies the piece invariant |
| EngineSpec.InitValid | src/game/TetrisEngine.js:67-93 | a new engine satisfies the invariant, its pieces are unturned and the game is not over |
| EngineSpec.FallUpdatesFacts | src/game/TetrisEngine.js:189-193 | a fall of n rows reports exactly n updates |
| EngineSpec.LandingY | src/game/TetrisEngine.js:189-193 | the landing row is the last row the piece fits on, falling one row at a time, and the piece does not fit one row lower |
| EngineSpec.FitsBelowFloor | src/game/TetrisEngine.js:117-139 | a shape with a filled cell fits only above the floor |
| EngineSpec.FitsInBounds | src/game/TetrisEngine.js:117-139 | a shape that fits at a row ≥ 0 lies wholly on the board |
| EngineSpec.ValidWithPiece | src/game/TetrisEngine.js:225 | replacing the active piece by another valid piece keeps the invariant |
| EngineSpec.ValidPieceAt | src/game/TetrisEngine.js:159-161 | a valid piece moved to an anchor on the board stays valid |
| EngineSpec.FitsKeepsValid | src/game/TetrisEngine.js:159-161 | an accepted move keeps the invariant |
| EngineSpec.LandedValid | src/game/TetrisEngine.js:189-193 | the piece is valid on the row it lands on |
| EngineSpec.FallValid | src/game/TetrisEngine.js:189-193 | the piece is valid on every row of its fall |
| EngineSpec.LockClearsAtMostFour | src/game/TetrisEngine.js:213-254 | a lock fills at most four full rows, so `baseScore[lines]` is always defined |
| EngineSpec.MoveDownAdvances | src/game/TetrisEngine.js:154-164 | an accepted down move moves the piece exactly one row down, still above the floor |
| EngineSpec.LockFields | src/game/TetrisEngine.js:195-235 | the state after a lock, field by field: compacted board, next piece made current, a new next piece, lines, score, level, interval and game-over flag |
| EngineSpec.LockKeepsValid | src/game/TetrisEngine.js:195-235 | a lock keeps the invariant |
| EngineSpec.LockedValid | src/game/TetrisEngine.js:195-235 | any state with the fields of a lock satisfies the invariant |
| EngineSpec.MoveKeepsValid | src/game/TetrisEngine.js:141-172 | `movePiece` keeps the invariant |
| EngineSpec.TurnsFour | src/game/TetrisEngine.js:110-115 | four quarter turns come back to the start |
| EngineSpec.TurnStep | src/game/TetrisEngine.js:179-181 | one more quarter turn is the rotation (r+90) % 360, still a multiple of 90 |
| EngineSpec.RotatedValid | src/game/TetrisEngine.js:177-181 | a quarter turn that fits gives a valid piece |
| EngineSpec.RotateKeepsValid | src/game/TetrisEngine.js:174-187 | `rotatePieceOnBoard` keeps the invariant |
| EngineSpec.SpawnOriented | src/game/TetrisEngine.js:95-108 | a spawned piece's shape is its kind's shape turned `rotation/90` times |
| EngineSpec.TurnKeepsOriented | src/game/TetrisEngine.js:177-181 | an accepted turn keeps shape and `rotation` in step |
| EngineSpec.LockKeepsOriented | src/game/TetrisEngine.js:224-226 | after a lock both pieces are oriented |
| EngineSpec.MoveKeepsOriented | src/game/TetrisEngine.js:141-172 | moves keep both pieces oriented |
| EngineSpec.RotateKeepsOriented | src/game/TetrisEngine.js:174-187 | rotation keeps both pieces oriented |
| EngineSpec.DropKeepsOriented | src/game/TetrisEngine.js:189-193 | a drop keeps both pieces oriented |
| EngineSpec.TickKeepsOriented | src/game/TetrisEngine.js:278-287 | gravity keeps both pieces oriented |
| EngineSpec.DropKeepsValid | src/game/TetrisEngine.js:189-193 | `dropPiece` keeps the invariant |
| EngineSpec.TickKeepsValid | src/game/TetrisEngine.js:278-287 | `update` keeps the invariant |
| EngineSpec.ValidIgnoresTime | src/game/TetrisEngine.js:281-285 | the drop timer plays no part in the invariant |
| EngineSpec.GarbageKeepsValid | src/game/TetrisEngine.js:301-312 | `addGarbageLines` keeps the invariant |
| EngineSpec.GameOverIsFinal | src/game/TetrisEngine.js:141-287 | after game over, moves, rotations, drops and ticks change nothing and report nothing, and garbage leaves the flag set |
| EngineSpec.LockRaisesGameOver | src/game/TetrisEngine.js:224-232 | after a lock the next piece sits at its spawn anchor; the flag is raised exactly when it does not fit there, and exactly then onGameOver is called |
| EngineSpec.LockScoring | src/game/TetrisEngine.js:212-222 | with k full rows, k ≤ 4; if k > 0: lines += k, score += [0,40,100,300,1200][k] × the old level, level = ⌊lines/10⌋+1, interval = max(50, 1000−(level−1)·50), onLinesClear(k); if k = 0 these are unchanged and onLinesClear is not called |
| EngineSpec.MoveOutcome | src/game/TetrisEngine.js:141-172 | a move succeeds iff the target fits; success shifts only the anchor, one step in the asked direction (none for an unknown one), and reports one update; any other rejected move changes nothing; a rejected down is a lock |
| EngineSpec.MoveSucceeds | src/game/TetrisEngine.js:159-164 | a move whose target fits moves the anchor there and reports it |
| EngineSpec.MoveFails | src/game/TetrisEngine.js:141-171 | after game over, or when a sideways target does not fit, a move changes nothing |
| EngineSpec.MoveDownFalls | src/game/TetrisEngine.js:154-164 | a down move that fits lowers the piece by one row |
| EngineSpec.MoveDownLocks | src/game/TetrisEngine.js:166-169 | a down move that does not fit locks the piece |
| EngineSpec.RotateSucceeds | src/game/TetrisEngine.js:179-184 | a rotation that fits turns the piece in place and reports it |
| EngineSpec.RotateFails | src/game/TetrisEngine.js:174-187 | a rotation that does not fit, or one after game over, changes nothing |
| EngineSpec.FallUpdatesCons | src/game/TetrisEngine.js:189-193 | a fall of at least one row starts with the update one row down |
| EngineSpec.FallStep | src/game/TetrisEngine.js:189-193 | during a drop, the down move from row y succeeds iff y is above the landing row, and lowers the piece by one row |
| EngineSpec.DropStep | src/game/TetrisEngine.js:189-193 | one turn of the `while (movePiece('down'))` loop: a successful move continues the drop from one row lower; a failed one ends it, and is a lock unless the game is over |
| EngineSpec.DropAtLanding | src/game/TetrisEngine.js:189-193 | `dropPiece` falls row by row to the landing row, with one update per row, then locks there: it always ends in a lock |
| EngineSpec.DropLocksAtOnce | src/game/TetrisEngine.js:189-193 | a piece that cannot fall is locked where it is |
| EngineSpec.DropOneRowFurther | src/game/TetrisEngine.js:189-193 | a drop that can fall one row is that fall followed by the drop from the row below |
| EngineSpec.LockEnds | src/game/TetrisEngine.js:224-234 | a lock makes the next piece current, spawns a new next piece and reports an update last |
| EngineSpec.TickOutcome | src/game/TetrisEngine.js:278-287 | `update(dt)` adds dt to the timer; once the timer reaches the interval, it does exactly one down move and resets the timer to 0 |
| EngineSpec.GarbageOutcome | src/game/TetrisEngine.js:301-312 | with n ≤ 20 rows the top n rows are grey with exactly one hole each, the old top 20−n rows move down by n, and nothing else changes |
| Tetris.PaintedAll | src/game/TetrisEngine.js:199-210 | the painting loop leaves the board with the piece painted |
| Tetris.GarbageFromStream | src/game/TetrisEngine.js:302-308 | one more loop turn adds the garbage row whose hole is the next draw |
| Tetris.ClearRows | src/game/TetrisEngine.js:237-250 | the bottom-up scan with its re-check of the same index returns the compacted rows and the number of full rows |
| Tetris.GeneratePiece | src/game/TetrisEngine.js:95-108 | the piece spawned for the next random kind; one draw consumed |
| Tetris.TetrisEngine.constructor | src/game/TetrisEngine.js:67-93 | an empty board, score 0, level 1, lines 0, interval 1000, and the current and next pieces from the first two draws |
| Tetris.NewEngine | src/game/TetrisEngine.js:66-93 | `new TetrisEngine(onUpdate, …)`: the constructor's engine, two draws consumed, and exactly one update handed to `onUpdate` by `init()`, carrying the new state |
| Tetris.TetrisEngine.IsValidMove | src/game/TetrisEngine.js:117-139 | true iff every filled cell at (newX+x, newY+y) is in columns [0, 10) and above row 20, and is on an empty cell when at a row ≥ 0 |
| Tetris.TetrisEngine.MovePiece | src/game/TetrisEngine.js:141-172 | the fields, result and callbacks are those of `EngineSpec.Move`; a draw is used only when the move locks |
| Tetris.TetrisEngine.RotatePieceOnBoard | src/game/TetrisEngine.js:174-187 | the fields, result and callbacks are those of `EngineSpec.RotateOnBoard` |
| Tetris.TetrisEngine.DropPiece | src/game/TetrisEngine.js:189-193 | the loop's fields and callbacks are those of `EngineSpec.Drop`; one draw is used unless the game was over |
| Tetris.TetrisEngine.PlacePiece | src/game/TetrisEngine.js:198-210 | the nested loop paints the piece's filled cells at rows ≥ 0 and changes nothing else |
| Tetris.TetrisEngine.ClearLines | src/game/TetrisEngine.js:237-250 | the board becomes its compaction; returns the number of full rows |
| Tetris.TetrisEngine.SettlePiece | src/game/TetrisEngine.js:198-222 | paint, clear, then lines, score (old level), level and interval updated only when rows were cleared |
| Tetris.TetrisEngine.LockPiece | src/game/TetrisEngine.js:195-235 | the fields and callbacks are those of `EngineSpec.Lock`; one draw consumed |
| Tetris.TetrisEngine.GetBoardWithCurrentPiece | src/game/TetrisEngine.js:257-276 | returns the board with the piece painted, and does not change `board` |
| Tetris.TetrisEngine.GetGameState | src/game/TetrisEngine.js:289-298 | the view of the engine handed to onUpdate |
| Tetris.TetrisEngine.Update | src/game/TetrisEngine.js:278-287 | the fields and callbacks are those of `EngineSpec.Tick` |
| Tetris.TetrisEngine.AddGarbageLines | src/game/TetrisEngine.js:301-312 | the board gets one garbage row per draw (none for a negative count), then one update is reported |
| Tetris.TetrisEngine.PushGarbageRows | src/game/TetrisEngine.js:302-309 | the `pop`/`unshift` loop yields the garbage rows for the next `count` draws |
| GameUtils.CalculateScore | src/utils/gameUtils.js:6-16 | 0 outside 1..4 cleared lines; at least 40 × level inside |
| GameUtils.ScoreMatchesEngine | src/utils/gameUtils.js:6-16 | for 0..4 lines it agrees with the engine's own score table |
| GameUtils.ScoreGrowsWithLines | src/utils/gameUtils.js:6-16 | more lines at the same positive level score strictly more |
| GameUtils.CalculateLevel | src/utils/gameUtils.js:21-26 | at most 15, and at least 1 for a non-negative total |
| GameUtils.LevelMonotone | src/utils/gameUtils.js:21-26 | the level never decreases as lines grow |
| GameUtils.LevelVersusEngine | src/utils/gameUtils.js:21-26 | below 150 lines equal to the engine's level; from 150 lines capped at 15 where the engine's level goes on rising |
| GameUtils.CalculateFallSpeed | src/utils/gameUtils.js:31-40 | at least 50, and 1000 − (level−1)·50 up to level 20 |
| GameUtils.FallSpeedNonIncreasing | src/utils/gameUtils.js:31-40 | a higher level never falls slower |
| GameUtils.FallSpeedMatchesEngine | src/utils/gameUtils.js:31-40 | equal to the engine's drop interval for every level |
| GameUtils.IsValidGameMove | src/utils/gameUtils.js:70-75 | true iff there is a state, it is not over and the move is one of the six names |
| GameUtils.EngineMovesPass | src/utils/gameUtils.js:70-75 | every control the engine has passes in a live game; nothing passes without a state or after game over |
| GameUtils.CalculateAttackLines | src/utils/gameUtils.js:80-94 | a double gives 1 + ⌊level/5⌋, a triple 2 + ⌊level/5⌋, a Tetris 4 + ⌊level/5⌋, any other count only ⌊level/5⌋; never negative for a level ≥ 0 |
| GameUtils.AttackMonotone | src/utils/gameUtils.js:80-94 | more lines at no lower level never attack with fewer rows |
| GameUtils.AttackAtLowLevels | src/utils/gameUtils.js:80-94 | below level 5 a single gives 0 and a four gives 4 |
| GameUtils.GarbageLine | src/utils/gameUtils.js:99-104 | the line has `width` cells |
| GameUtils.GarbageLineOneHole | src/utils/gameUtils.js:99-104 | exactly one empty cell, at the hole, grey elsewhere; at width 10 the same as the engine's garbage row |
| GameUtils.GenerateGarbageLine | src/utils/gameUtils.js:99-104 | a fresh array holding the garbage line for the next draw |
| GameUtils.CheckGameOver | src/utils/gameUtils.js:109-119 | true iff some cell in rows 0..topRows−1 is not empty; when topRows exceeds the rows the board has and none of them has a taken cell, the scan reads past the last row and throws |
| GameUtils.CheckGameOverByDefault | src/utils/gameUtils.js:109-119 | `checkGameOver(board)` with the default `topRows = 2`: true iff a cell of the first two rows is taken; throws exactly on a board of fewer than two rows with no taken cell |
| GameUtils.EmptyTopNotOver | src/utils/gameUtils.js:109-119 | a fresh engine board is never over, and the scan throws on it exactly when more than its 20 rows are asked for |
| GameUtils.CloneBoard | src/utils/gameUtils.js:124-126 | the copy has the same contents |
| GameUtils.Swap | src/utils/gameUtils.js:135 | a swap keeps the length |
| GameUtils.ShuffleFrom | src/utils/gameUtils.js:133-136 | the rest of the shuffle from index i keeps the length |
| GameUtils.ShuffleStep | src/utils/gameUtils.js:133-136 | one loop turn, which swaps i with the index drawn below i+1, leaves the same whole shuffle to do |
| GameUtils.SwapPermutes | src/utils/gameUtils.js:135 | a swap is a permutation |
| GameUtils.ShuffleFromPermutes | src/utils/gameUtils.js:133-136 | every stage of the shuffle is a permutation |
| GameUtils.ShufflePermutes | src/utils/gameUtils.js:131-138 | `shuffleArray` returns a permutation of its input |
| GameUtils.ShuffleArray | src/utils/gameUtils.js:131-138 | returns a fresh array holding the shuffle of the input, so the input is not changed; consumes one draw per index from the top down to 1 |
| GameUtils.SwapDown | src/utils/gameUtils.js:133-136 | the in-place loop produces the shuffle |
| GameUtils.SwapTurn | src/utils/gameUtils.js:134-135 | one loop turn consumes one draw and keeps the loop on course for the whole shuffle |
| GameUtils.SwapCells | src/utils/gameUtils.js:135 | the destructuring swap exchanges two cells |
| GameUtils.GeneratePieceBag | src/utils/gameUtils.js:143-146 | the shuffle of the seven piece letters, with six draws |
| GameUtils.PieceBagHoldsEachKindOnce | src/utils/gameUtils.js:143-146 | the bag holds each of the seven kinds exactly once |
| GameUtils.ValidateSplits | src/utils/gameUtils.js:165-169 | the check over a + b is the check over a and over b; on an object it holds iff every expected field is an own key |
| GameUtils.ValidateNetworkData | src/utils/gameUtils.js:165-169 | the data passes exactly when it is an object and every expected field is one of its own properties; falsy and non-object data fail |
| GameUtils.Pruned | src/utils/gameUtils.js:182-184 | pruning never adds timestamps |
| GameUtils.AdmitBounded | src/utils/gameUtils.js:174-193 | a window within `maxActions` stays within it, and a call is allowed iff fewer than `maxActions` remain after pruning |
| GameUtils.AdmitKeepsWindow | src/utils/gameUtils.js:174-193 | the kept timestamps stay sorted and all lie in [now − timeWindow, now] |
| GameUtils.PrunedSuffix | src/utils/gameUtils.js:182-184 | pruning only drops from the front |
| GameUtils.PrunedWindow | src/utils/gameUtils.js:182-184 | after pruning, no timestamp is older than the cutoff |
| GameUtils.RateLimiter.constructor | src/utils/gameUtils.js:174-176 | an empty window with the given limits |
| GameUtils.RateLimiter.Allow | src/utils/gameUtils.js:177-192 | prunes, then allows and records `now` iff fewer than `maxActions` remain, and keeps the window bound |
| ServerProtocol.Lookup | server/server.js:67 | `players.get`: the player with that id, or none iff no player has it |
| ServerProtocol.FirstOther | server/server.js:128 | the first player whose id differs, or none iff there is none |
| ServerProtocol.Without | server/server.js:270 | exactly the players with another id remain |
| ServerProtocol.Put | server/server.js:56 | `players.set`: appended when the id is new, replaced in place otherwise |
| ServerProtocol.Replace | server/server.js:218 | the player with that id replaced in place, the others unchanged |
| ServerProtocol.Merge | server/server.js:218 | `Object.assign(player, stats)`: each reported statistic replaces the player's, each one left out is kept; id and name stay |
| ServerProtocol.WithoutDistinct | server/server.js:69 | removing a player keeps ids distinct |
| ServerProtocol.PutDistinct | server/server.js:56 | adding a player keeps ids distinct and makes it found by its id |
| ServerProtocol.ReplaceDistinct | server/server.js:218 | merging stats keeps ids distinct |
| ServerProtocol.LookupAt | server/server.js:67 | with distinct ids each player is found by its own id |
| ServerProtocol.ServerAttack | server/server.js:185-192 | 1..4 cleared lines map to themselves and anything else to 0 |
| ServerProtocol.ToEach | server/server.js:85-95 | one message to each player, in table order |
| ServerProtocol.ToEachSnoc | server/server.js:85-95 | the messages to one more player are one more message at the end |
| ServerProtocol.ToEachOnce | server/server.js:85-95 | with distinct ids each player gets the message exactly once |
| ServerProtocol.AttackReachesOthersOnce | server/server.js:200-210 | the attack goes only to others, and each other player gets it exactly once |
| ServerProtocol.EndRoundShape | server/server.js:132-158 | every player gets `gameEnd` with `isWinner` iff it is the winner; `Victory` goes to the winner only |
| ServerProtocol.EndGameAddressing | server/server.js:109-168 | `endGame` sends `gameEnd` to every player, with the winner in the result and `isWinner` true only for the winner; `Victory` and `OpponentGameOver` reach only the winner |
| ServerProtocol.OpponentGameOverIff | server/server.js:160-168 | `OpponentGameOver` is sent iff the reason is `game_over` and both a winner and a loser are present |
| ServerProtocol.VictoriesAppend | server/server.js:132-168 | victory notices add up over concatenated logs |
| ServerProtocol.EndRoundVictories | server/server.js:132-158 | one `Victory` when the winner is in the room, none otherwise |
| ServerProtocol.OneVictory | server/server.js:109-168 | `endGame` sends exactly one `Victory` when the winner is in the room, none otherwise |
| ServerProtocol.QueueStepSmall | server/server.js:258-307 | from a queue with no duplicate and at most one entry, any join or leave keeps it so |
| ServerProtocol.QueueFromEmpty | server/server.js:258-307 | starting from empty, the queue never holds a duplicate id and has at most one entry after each call |
| ServerProtocol.JoinPairsOldestFirst | server/server.js:273-276 | a second player joins behind the first, and both are taken, the oldest first |
| ServerProtocol.WithoutIdempotent | server/server.js:269-271 | `removePlayerFromQueue` twice is the same as once |
| ServerProtocol.EnqueueDistinct | server/server.js:258-262 | re-queuing first removes the old entry, so ids stay distinct |
| ServerProtocol.DropRoom | server/server.js:313-315 | exactly the other rooms remain |
| ServerProtocol.DropRoomDistinct | server/server.js:313-315 | removing a room keeps room ids distinct |
| ServerProtocol.FirstHolder | server/server.js:317-329 | the first room, in insertion order, that holds the player, or none iff no room holds it |
| ServerProtocol.ChosenName | server/server.js:369 | the given name, or a longer name starting with `Joueur` |
| RoomSpec.StartingUntouched | server/server.js:98-106 | neither removal, stats nor a loss report moves a room into or out of `starting`: only the countdown does |
| RoomSpec.AddOutcomes | server/server.js:51-64 | a full room refuses and changes nothing; the first player is just stored; the second moves the room to `starting`, sets `startTime` and sends `gameStart` with the roster to both players |
| RoomSpec.RemoveOutcomes | server/server.js:66-78 | the player leaves the table; if it was in a game in progress with one opponent, the room is finished with the survivor as winner for `opponent_disconnect`; otherwise state, winner and log are unchanged |
| RoomSpec.UpdateStatsMerges | server/server.js:215-219 | the reported stats are merged into the player's entry |
| RoomSpec.UpdateStatsKnockout | server/server.js:220-227 | a game-over report while `playing` ends the game with the other player as winner for `knockout` |
| RoomSpec.UpdateStatsQuiet | server/server.js:215-229 | any other report leaves state and winner alone and sends nothing |
| RoomSpec.ReportLossOutcomes | server/server.js:480-499 | in a game in progress with an opponent, the reporter loses, for `game_over` if it says so, else its reason or `manual`; otherwise nothing changes |
| RoomSpec.MatchOutcomes | server/server.js:273-303 | a new room holds the pair in `starting`; both `gameStart` events come before either `matchFound` |
| RoomSpec.FinishedIsFinal | server/server.js:66-229 | once `finished`, no event changes the state or the winner |
| RoomSpec.EventKeepsValid | server/server.js:41-249 | every room event keeps at most two players with distinct ids |
| RoomSpec.LifecycleKeepsValid | server/server.js:51-169 | adding, the countdown and ending keep the room invariant |
| RoomSpec.AttackDelivery | server/server.js:171-213 | no attack unless the sender is in a `playing` room and sent 1..4 lines; otherwise each other player gets exactly one `attackReceived` with that amount, and the sender gets none |
| ServerRooms.Notify | server/server.js:85-95 | the `forEach` sends one message to each player |
| ServerRooms.NotifyOthers | server/server.js:200-210 | the `forEach` skips the sender |
| ServerRooms.StaleRoomShadowsCurrent | server/server.js:317-329 | a finished room that still holds the player is found first, so the game in progress is left without a winner |
| ServerRooms.CurrentRoomDisconnectHandsWin | server/server.js:66-78 | leaving the room of a game in progress makes the other player winner, with exactly one `Victory` |
| ServerRooms.GameRoom.constructor | server/server.js:42-49 | an empty `waiting` room |
| ServerRooms.GameRoom.AddPlayer | server/server.js:51-64 | added iff the room had fewer than two players, with the state and messages of `RoomSpec.Add` |
| ServerRooms.GameRoom.StartGame | server/server.js:80-95 | the state and messages of `RoomSpec.Start` |
| ServerRooms.GameRoom.CountdownElapsed | server/server.js:98-106 | `playing`, and `gameStateChange` to each player |
| ServerRooms.GameRoom.EndGame | server/server.js:109-169 | the state and messages of `RoomSpec.End` |
| ServerRooms.GameRoom.RemovePlayer | server/server.js:66-78 | returns the removed player, with the state and messages of `RoomSpec.Remove` |
| ServerRooms.GameRoom.SendAttack | server/server.js:171-213 | the messages of `RoomSpec.Attack`, the room unchanged |
| ServerRooms.GameRoom.UpdatePlayerStats | server/server.js:215-229 | the state and messages of `RoomSpec.UpdateStats` |
| ServerRooms.GameRoom.BroadcastGameState | server/server.js:231-249 | the standings to every player while `playing`, and nothing otherwise |
| ServerRooms.MatchmakingManager.constructor | server/server.js:253-256 | an empty queue and no rooms |
| ServerRooms.MatchmakingManager.RemovePlayerFromQueue | server/server.js:269-271 | the queue without that id, the rooms unchanged |
| ServerRooms.MatchmakingManager.TryCreateMatch | server/server.js:273-307 | with two or more waiting, the two oldest are taken into a new stored room and sent their messages; otherwise nothing changes |
| ServerRooms.MatchmakingManager.AddPlayerToQueue | server/server.js:258-267 | remove the old entry, append, then pair the two oldest into a new room |
| ServerRooms.MatchmakingManager.GetRoom | server/server.js:309-311 | the stored room for the id, or none iff there is none |
| ServerRooms.MatchmakingManager.RemoveRoom | server/server.js:313-315 | the room is no longer stored |
| ServerRooms.MatchmakingManager.LeaveRoom | server/server.js:319-325 | the player leaves the room, and the room is deleted when left empty |
| ServerRooms.MatchmakingManager.RemovePlayerFromRoom | server/server.js:317-329 | the first room, in insertion order, that holds the player loses it, and is deleted if left empty; the other rooms are unchanged |
| ServerRooms.MatchmakingManager.RemovePlayerFromRoomOf | server/server.js:317-329 | the same removal from the room the session is seated in: that room loses the player and is deleted if left empty; the other rooms are unchanged |
| ServerGateway.Seat | server/server.js:57 | `player.roomId = room.id` for the session that owns the player, the others unchanged |
| ServerGateway.SeatOf | server/server.js:394 | the room of `currentPlayer`, if any |
| ServerGateway.Relayed | server/server.js:448-454 | the relayed update carries board, score, lines and level, and no game-over flag |
| ServerGateway.OnConnection | server/server.js:356-362 | the socket is connected and has no player yet |
| ServerGateway.OnJoinQueue | server/server.js:365-382 | a player with the given or a drawn name is queued; when paired, both are seated in the new room, its countdown is pending, and `queueJoined` follows the match messages |
| ServerGateway.OnLeaveQueue | server/server.js:385-390 | with a player, it leaves the queue and `queueLeft` is sent; otherwise nothing |
| ServerGateway.OnGameMove | server/server.js:393-404 | relayed to the rest of the room iff the player is seated in a stored room |
| ServerGateway.OnSendAttack | server/server.js:406-419 | the room's attack when the player is seated in a stored room; nothing otherwise |
| ServerGateway.OnPlayerReady | server/server.js:501-508 | `opponentReady` to the rest of the room iff the player is seated |
| ServerGateway.OnJoinRoom | server/server.js:460-477 | seats the player and sends `roomJoined` iff the room exists and holds it |
| ServerGateway.MergeStats | server/server.js:435 | the room's stats merge |
| ServerGateway.OnUpdateStats | server/server.js:431-439 | the merge followed by the standings broadcast |
| ServerGateway.OnGameUpdate | server/server.js:442-457 | the merge followed by `opponentMove` with the stats to the rest of the room |
| ServerGateway.OnGameEnd | server/server.js:480-499 | the loss report of `RoomSpec.ReportLoss` for the player's room |
| ServerGateway.OnCountdownElapsed | server/server.js:98-106 | the pending countdown fires, once |
| ServerGateway.OnDisconnect | server/server.js:511-533 | the socket leaves the connected set and the queue; the first room, in creation order, that lists the player loses it, and every player left in that room gets `opponentDisconnect`; no room changes when none lists it |
| ServerGateway.OnDisconnectCorrected | server/server.js:511-533 | the handler the disconnect evidently intends: the room the session is seated in loses the player, and every player left there gets `opponentDisconnect` |
| ServerGateway.DisconnectNotifiesSurvivor | server/server.js:511-533 | a disconnect during a game hands the win to the other player, who gets one `Victory` and, last, `opponentDisconnect` |
| VersusSpec.Opponent | src/game/VersusGameManager.js:67-79 | the other player |
| VersusSpec.SetEngine | src/game/VersusGameManager.js:6-7 | sets one player's engine and leaves the other's alone |
| VersusSpec.SetQueue | src/game/VersusGameManager.js:10-13 | sets one attack queue and leaves the other alone |
| VersusSpec.SendAttack | src/game/VersusGameManager.js:81-89 | appends exactly one entry to the recipient's queue; the other queue and the engines are untouched; `onAttack` is told |
| VersusSpec.HandleLinesClear | src/game/VersusGameManager.js:67-79 | fewer than 2 lines change nothing; k ≥ 2 lines append `calculateAttackLines(k, level)` to the opponent's queue only |
| VersusSpec.HandleGameOver | src/game/VersusGameManager.js:53-65 | the other player wins, the state is `finished` and the loop stops |
| VersusSpec.Attacked | src/game/VersusGameManager.js:97 | garbage keeps the board's row count |
| VersusSpec.ShiftAttack | src/game/VersusGameManager.js:96-97 | one `shift` shortens the queue by one |
| VersusSpec.ProcessAttackQueue | src/game/VersusGameManager.js:91-99 | the player's queue ends empty |
| VersusSpec.HandleUpdate | src/game/VersusGameManager.js:43-51 | the update callback leaves the player's queue empty |
| VersusSpec.HandleEvent | src/game/VersusGameManager.js:43-79 | after one callback the player still has an engine |
| VersusSpec.Dispatch | src/game/VersusGameManager.js:29-40 | after a run of callbacks the player still has an engine |
| VersusSpec.UpdatesSnoc | src/game/VersusGameManager.js:206-210 | one more update notification is one more at the end |
| VersusSpec.Garbaged | src/game/VersusGameManager.js:95-98 | the queued garbage keeps the board's row count |
| VersusSpec.GarbagedKeepsRest | src/game/VersusGameManager.js:95-98 | draining the queue changes only the board |
| VersusSpec.GarbagedKeepsValid | src/game/VersusGameManager.js:95-98 | draining the queue keeps the engine invariant |
| VersusSpec.ShiftFacts | src/game/VersusGameManager.js:95-98 | one turn takes the oldest entry and applies it to this player's engine only |
| VersusSpec.DrainUnfold | src/game/VersusGameManager.js:95-98 | the drain is one shift followed by the drain of the rest |
| VersusSpec.DrainFrame | src/game/VersusGameManager.js:91-99 | the drain leaves the other engine and the other queue untouched |
| VersusSpec.DrainEngine | src/game/VersusGameManager.js:91-99 | the queue is applied to the player's engine in FIFO order, one draw per garbage row |
| VersusSpec.DrainNotices | src/game/VersusGameManager.js:91-99 | each applied attack reports one game update |
| VersusSpec.EventFrame | src/game/VersusGameManager.js:43-79 | a callback changes at most this player's board and never the other engine |
| VersusSpec.EventAttacks | src/game/VersusGameManager.js:67-79 | only a lines-clear callback adds to the opponent's queue, and then by `AttackFor` |
| VersusSpec.EventDrains | src/game/VersusGameManager.js:43-51 | an update callback drains this player's queue into its engine; the other callbacks leave both alone |
| VersusSpec.EventGameOver | src/game/VersusGameManager.js:53-65 | the game-over callback makes the other player winner and finishes; the others leave winner and state alone |
| VersusSpec.DispatchFrame | src/game/VersusGameManager.js:43-79 | a run of callbacks changes at most this player's board and never the other engine |
| VersusSpec.DispatchAttacks | src/game/VersusGameManager.js:67-79 | the opponent's queue gets exactly the attacks of the run's lines-clear callbacks, in order |
| VersusSpec.DispatchDrains | src/game/VersusGameManager.js:43-51 | a run with an update drains this player's queue; one without leaves it |
| VersusSpec.DispatchGameOver | src/game/VersusGameManager.js:53-65 | a run with game over finishes with the other player as winner |
| VersusSpec.DispatchKeepsConsistent | src/game/VersusGameManager.js:43-99 | callbacks keep both engines valid |
| VersusSpec.Stepped | src/game/VersusGameManager.js:167 | installs the engine's new state and nothing else |
| VersusSpec.SteppedConsistent | src/game/VersusGameManager.js:167 | a valid new engine state keeps the controller consistent |
| VersusSpec.DropTurn | src/game/VersusGameManager.js:181 | one turn of the drop loop is a down move on this player's engine only |
| VersusSpec.TickPlayer | src/game/VersusGameManager.js:136-137 | one engine's update keeps the controller consistent, the other engine and the clock |
| VersusSpec.GameLoopTick | src/game/VersusGameManager.js:130-139 | the 16 ms callback does nothing unless `playing`, and otherwise sets the clock to `now` |
| VersusSpec.LoopRun | src/game/VersusGameManager.js:136-137 | the engine updates keep the controller consistent |
| VersusSpec.TickAll | src/game/VersusGameManager.js:136-137 | updating the engines in order keeps the controller consistent |
| VersusSpec.TickBothIs | src/game/VersusGameManager.js:136-137 | the tick is player 1's update followed by player 2's |
| VersusSpec.StartGame | src/game/VersusGameManager.js:101-107 | succeeds iff `waiting`, then `countdown` from 3 with one update; otherwise returns false and changes nothing |
| VersusSpec.CountdownStep | src/game/VersusGameManager.js:113-124 | each second counts down and notifies; at zero the game is `playing` and the loop runs from `now` |
| VersusSpec.PauseGame | src/game/VersusGameManager.js:149-154 | `playing` becomes `paused`; any other state is left alone; no engine is touched |
| VersusSpec.ResumeGame | src/game/VersusGameManager.js:156-162 | `paused` becomes `playing` with the clock reset; any other state is left alone; no engine is touched |
| VersusSpec.DestroyAsWritten | src/game/VersusGameManager.js:245-250 | `destroy` drops engines, queues and loop, but not a running countdown |
| VersusSpec.Destroy | src/game/VersusGameManager.js:245-250 | no engines, empty queues so that zero attacks are reported pending, and no loop or countdown left |
| VersusSpec.NewManagerFacts | src/game/VersusGameManager.js:5-41 | a new controller is `waiting` with two fresh engines, empty queues, no loop, and the two `init` updates |
| VersusSpec.CountdownThree | src/game/VersusGameManager.js:109-125 | after `startGame` the countdown reaches `playing` on the third step and not earlier |
| VersusSpec.CountdownKeeps | src/game/VersusGameManager.js:113-124 | a countdown step keeps the controller consistent |
| VersusSpec.PauseResume | src/game/VersusGameManager.js:149-162 | pausing then resuming gives back the game with the clock reset and two notifications |
| VersusSpec.SummaryOfSound | src/game/VersusGameManager.js:225-243 | the summary reports an engine's score, lines and level, or 0, 0, 1 when there is none |
| VersusSpec.DestroyAsWrittenLeavesCountdown | src/game/VersusGameManager.js:109-137 | `destroy` during the countdown leaves it running: it reaches `playing`, starts the loop, and the next tick calls `update` on a null engine |
| VersusSpec.DestroyKeeps | src/game/VersusGameManager.js:245-250 | the corrected `destroy` keeps the controller consistent |
| VersusSpec.LockShape | src/game/TetrisEngine.js:213-234 | a lock reports its lines, then game over if any, then an update |
| VersusSpec.LockEvents | src/game/TetrisEngine.js:195-235 | a lock's callbacks include an update, include game over iff the flag is raised, and carry the attack for its cleared rows |
| VersusSpec.MoveEvents | src/game/TetrisEngine.js:141-172 | a move reports an update iff it moved or locked, game over iff it raised the flag, and attacks only when it locked |
| VersusSpec.TickEvents | src/game/TetrisEngine.js:278-287 | a tick reports an update iff it was due, and attacks only when it locked |
| VersusSpec.MovePlayerAttacks | src/game/VersusGameManager.js:165-191 | a player's move returns the engine's result and adds to the opponent's queue exactly the attack from a lock |
| VersusSpec.StepDrains | src/game/VersusGameManager.js:43-51 | after an engine step with an update, the player's queue is drained into the new board |
| VersusSpec.StepNothing | src/game/VersusGameManager.js:165-170 | a step that changes nothing and reports nothing leaves the controller alone |
| VersusSpec.MovePlayerDrains | src/game/VersusGameManager.js:165-191 | a move that moved or locked drains the player's own queue; one that did neither changes nothing |
| VersusSpec.MovePlayerIs | src/game/VersusGameManager.js:165-191 | a player's move is the engine's move followed by its callbacks |
| VersusSpec.StepGameOver | src/game/VersusGameManager.js:53-65 | a step that ends the player's game makes the other player winner and finishes |
| VersusSpec.MovePlayerGameOver | src/game/VersusGameManager.js:165-191 | a move that ends the player's game makes the other player winner |
| VersusSpec.MovePlayerKeeps | src/game/VersusGameManager.js:165-191 | moves keep the controller consistent |
| VersusSpec.RotatePlayerIs | src/game/VersusGameManager.js:172-198 | a player's rotation is the engine's rotation followed by its callbacks |
| VersusSpec.RotatePlayerEffect | src/game/VersusGameManager.js:172-198 | an accepted rotation drains the player's queue; a rejected one changes nothing |
| VersusSpec.RotatePlayerKeeps | src/game/VersusGameManager.js:172-198 | rotation keeps the controller consistent, the other engine and queue, and winner and state |
| VersusSpec.RotateDispatch | src/game/VersusGameManager.js:43-51 | the one update of a rotation is the update callback |
| VersusSpec.ControlsNeedPlaying | src/game/VersusGameManager.js:165-204 | outside `playing`, move and rotate return false and nothing changes, and drop does nothing |
| VersusSpec.DropTurnDrains | src/game/VersusGameManager.js:179-183 | each down move of a drop that moved or locked drains the player's queue; one that did neither changes nothing |
| VersusSpec.DropTurnMoves | src/game/VersusGameManager.js:179-183 | a down move that moved or locked drains the player's queue into the new board |
| VersusSpec.DropTurnStill | src/game/VersusGameManager.js:179-183 | a down move that neither moved nor locked changes nothing |
| VersusSpec.DropLoopLocksOnce | src/game/VersusGameManager.js:179-183 | a drop ends with the player's queue empty and exactly one piece drawn beyond the garbage |
| VersusSpec.DropLoopWithoutGarbage | src/game/VersusGameManager.js:179-183 | with no garbage pending, a drop leaves the engine as `dropPiece` does |
| VersusSpec.DropPlayerLocksOnce | src/game/VersusGameManager.js:179-204 | a drop in a live game locks one piece and drains the player's queue |
| VersusSpec.DropLoopKeeps | src/game/VersusGameManager.js:179-183 | a drop keeps the controller consistent and the other engine |
| VersusSpec.TickPlayerGameOver | src/game/VersusGameManager.js:136-137 | an engine update that ends the game makes the other player winner |
| VersusSpec.TickWinner | src/game/VersusGameManager.js:130-139 | in one tick, if player 2 tops out, player 1 wins, even when player 1 topped out in the same tick; if only player 1 tops out, player 2 wins; otherwise play goes on |
| VersusSpec.TwoEnds | src/game/VersusGameManager.js:53-65 | the later game over of one tick overrides the earlier |
| Versus.VersusGameManager.constructor | src/game/VersusGameManager.js:5-41 | the fields of `NewManager`, from two fresh engines |
| Versus.VersusGameManager.PutEngine | src/game/VersusGameManager.js:6-7 | one engine replaced |
| Versus.VersusGameManager.Shift | src/game/VersusGameManager.js:96 | `queue.shift()`: returns the oldest entry and drops it |
| Versus.VersusGameManager.GetCompleteGameState | src/game/VersusGameManager.js:212-223 | state, winner, both engine views and the two queue lengths |
| Versus.VersusGameManager.GetGameSummary | src/game/VersusGameManager.js:225-243 | winner and each player's score, lines and level with the 0/0/1 defaults |
| Versus.VersusGameManager.NotifyGameUpdate | src/game/VersusGameManager.js:206-210 | one update notification |
| Versus.VersusGameManager.SendAttack | src/game/VersusGameManager.js:81-89 | the fields of `VersusSpec.SendAttack` |
| Versus.VersusGameManager.HandleLinesClear | src/game/VersusGameManager.js:67-79 | the fields of `VersusSpec.HandleLinesClear` |
| Versus.VersusGameManager.StopGameLoop | src/game/VersusGameManager.js:142-147 | the loop is stopped |
| Versus.VersusGameManager.HandleGameOver | src/game/VersusGameManager.js:53-65 | the fields of `VersusSpec.HandleGameOver` |
| Versus.VersusGameManager.ProcessAttackQueue | src/game/VersusGameManager.js:91-99 | the `while`/`shift` loop leaves the fields of `VersusSpec.ProcessAttackQueue` |
| Versus.VersusGameManager.HandleUpdate | src/game/VersusGameManager.js:43-51 | drain, then notify |
| Versus.VersusGameManager.HandleEvent | src/game/VersusGameManager.js:29-40 | the callback wired to the engine event |
| Versus.VersusGameManager.Dispatch | src/game/VersusGameManager.js:29-40 | the callbacks of one engine call, in order |
| Versus.VersusGameManager.Apply | src/game/VersusGameManager.js:29-40 | installs an engine step and runs its callbacks |
| Versus.VersusGameManager.MovePlayer | src/game/VersusGameManager.js:165-191 | the result and fields of `VersusSpec.MovePlayer` |
| Versus.VersusGameManager.RotatePlayer | src/game/VersusGameManager.js:172-198 | the result and fields of `VersusSpec.RotatePlayer` |
| Versus.VersusGameManager.DropTurn | src/game/VersusGameManager.js:181 | one down move of the drop and its callbacks; returns whether it moved |
| Versus.VersusGameManager.DropPlayer | src/game/VersusGameManager.js:179-204 | the loop of a drop leaves the fields of `VersusSpec.DropPlayer` |
| Versus.VersusGameManager.TickPlayer | src/game/VersusGameManager.js:136-137 | one engine's update and its callbacks |
| Versus.VersusGameManager.GameLoopTick | src/game/VersusGameManager.js:130-139 | the fields of `VersusSpec.GameLoopTick`; returns false exactly when the source would throw on a null engine |
| Versus.VersusGameManager.SetClock | src/game/VersusGameManager.js:134 | the clock set to `now` |
| Versus.VersusGameManager.LoopRun | src/game/VersusGameManager.js:132-137 | the two updates; returns whether an engine was there |
| Versus.VersusGameManager.TickBoth | src/game/VersusGameManager.js:136-137 | player 1's update, then player 2's |
| Versus.VersusGameManager.StartGame | src/game/VersusGameManager.js:101-107 | the result and fields of `VersusSpec.StartGame` |
| Versus.VersusGameManager.StartCountdown | src/game/VersusGameManager.js:109-112 | the count at 3 and one notification |
| Versus.VersusGameManager.StartGameLoop | src/game/VersusGameManager.js:127-130 | the clock at `now` and the loop running |
| Versus.VersusGameManager.CountdownStep | src/game/VersusGameManager.js:113-124 | the fields of `VersusSpec.CountdownStep` |
| Versus.VersusGameManager.PauseGame | src/game/VersusGameManager.js:149-154 | the fields of `VersusSpec.PauseGame` |
| Versus.VersusGameManager.ResumeGame | src/game/VersusGameManager.js:156-162 | the fields of `VersusSpec.ResumeGame` |
| Versus.VersusGameManager.Destroy | src/game/VersusGameManager.js:245-250 | the fields of the corrected `VersusSpec.Destroy` |
| BattleRoyaleSpec.NewClient | src/game/BattleRoyaleManager.js:5-29 | `waiting`, no engine and no opponent, an empty local player, nothing pending or sent |
| BattleRoyaleSpec.UpdateGameState | src/game/BattleRoyaleManager.js:376-390 | only the notices change: they gain one snapshot of the phase, both players and whether an engine exists, exactly when the game-update callback was given |
| BattleRoyaleSpec.UpdateGameStateAsWritten | src/game/BattleRoyaleManager.js:376-390 | as written: it throws exactly when an engine exists, changing nothing; otherwise it is the corrected snapshot |
| BattleRoyaleSpec.LocalGameUpdate | src/game/BattleRoyaleManager.js:98-115 | score, lines and level copied; stats sent, and the send time recorded, only when more than 500 ms have passed since the last send; the engine view passed on |
| BattleRoyaleSpec.LocalGameUpdateAsWritten | src/game/BattleRoyaleManager.js:98-115 | as written: it throws exactly when the stats are due and an engine exists, after copying score, lines and level; then nothing is sent, the send time stays and the callback is not told |
| BattleRoyaleSpec.LocalGameOver | src/game/BattleRoyaleManager.js:117-133 | the local player is over, the state `finished`, and `gameEnd` is sent with `isGameOver` true and reason `game_over` |
| BattleRoyaleSpec.LocalLinesClear | src/game/BattleRoyaleManager.js:135-150 | exactly one upstream attack carrying the raw count iff `lines ≥ 1`; nothing otherwise |
| BattleRoyaleSpec.ChosenName | src/game/BattleRoyaleManager.js:172 | the given name, or a generated one numbered below 1000 |
| BattleRoyaleSpec.StartMatchmaking | src/game/BattleRoyaleManager.js:165-183 | returns false with no change when not connected; otherwise `matchmaking`, named, with the socket id, `joinQueue` sent, one `matchmaking` snapshot when the callback was given, and nothing else changed |
| BattleRoyaleSpec.CancelMatchmaking | src/game/BattleRoyaleManager.js:186-192 | acts only in `matchmaking`: `leaveQueue` sent, back to `waiting`, one `waiting` snapshot when the callback was given, nothing else changed |
| BattleRoyaleSpec.JoinRoom | src/game/BattleRoyaleManager.js:85-95 | the socket id copied in, `joinRoom` sent, `playing`, one `playing` snapshot when the callback was given, and every other field unchanged |
| BattleRoyaleSpec.MatchFound | src/game/BattleRoyaleManager.js:195-208 | the opponent stored with score 0, lines 0 and level 1, the state `starting`, one `starting` snapshot showing that opponent when the callback was given, nothing else changed |
| BattleRoyaleSpec.MatchFoundAsWritten | src/game/BattleRoyaleManager.js:195-208 | as written: opponent and state recorded, then it throws exactly when an engine exists, with no snapshot |
| BattleRoyaleSpec.CreateEngine | src/game/BattleRoyaleManager.js:74-78 | `new TetrisEngine(…)` in the client: the engine's first report (score 0, lines 0, level 1) goes through `handleLocalGameUpdate` while the old engine, if any, is in place, so stats are sent, with a board only if there was an engine, exactly when more than 500 ms have passed; then the new engine with no attack received is stored |
| BattleRoyaleSpec.InitializeLocalEngine | src/game/BattleRoyaleManager.js:72-82 | the engine created by `CreateEngine`, with no attack received, returned and stored |
| BattleRoyaleSpec.InitializeLocalEngineAsWritten | src/game/BattleRoyaleManager.js:72-82 | as written: when an engine is already there and the stats are due, the first report throws inside the constructor, so only the copied stats remain and the new engine is never stored |
| BattleRoyaleSpec.InitializeLocalGame | src/game/BattleRoyaleManager.js:359-373 | an existing engine is kept and only the start time moves to `now`; with none, one is created by `CreateEngine`, its first report without a board; an engine exists afterwards |
| BattleRoyaleSpec.GameStart | src/game/BattleRoyaleManager.js:210-215 | the local game initialized, an engine present and kept if there was one, `playing`, and one `playing` snapshot with the engine when the callback was given |
| BattleRoyaleSpec.GameStartAsWritten | src/game/BattleRoyaleManager.js:210-215 | as written: after initializing there is always an engine, so the closing `updateGameState` always throws |
| BattleRoyaleSpec.GameEnd | src/game/BattleRoyaleManager.js:217-236 | `finished`, the engine dropped, and a game-over notice with `isVictory = isWinner` |
| BattleRoyaleSpec.GameEndAsWritten | src/game/BattleRoyaleManager.js:217-236 | as written: with an engine, `finished` is set and then the engine's `destroy` throws, so the engine stays and no game-over notice is made |
| BattleRoyaleSpec.OpponentGameOver | src/game/BattleRoyaleManager.js:239-258 | the opponent marked over and one victory notice |
| BattleRoyaleSpec.Victory | src/game/BattleRoyaleManager.js:261-271 | only the notices change: the server's report is passed on exactly when the victory callback was given; phase, engine and outbox stay |
| BattleRoyaleSpec.AttackReceived | src/game/BattleRoyaleManager.js:273-288 | with an engine while `playing`, the attack goes to the engine and nothing is pending; otherwise it is appended to `pendingAttacks` and the engine is untouched |
| BattleRoyaleSpec.AttackReceivedAsWritten | src/game/BattleRoyaleManager.js:273-288 | the source throws exactly when an engine is present while `playing`; otherwise it queues like the corrected handler |
| BattleRoyaleSpec.Or | src/game/BattleRoyaleManager.js:298-300 | `x \|\| old`: a present non-zero value, else the old one |
| BattleRoyaleSpec.OpponentMove | src/game/BattleRoyaleManager.js:290-321 | data from anyone but the opponent is ignored; falsy fields keep the old values; an opponent game over while the local player is alive gives a victory notice; the view is passed on |
| BattleRoyaleSpec.OpponentDisconnect | src/game/BattleRoyaleManager.js:323-345 | outside `playing` nothing changes; in `playing` the game is `finished` with no engine, the notices gain the disconnect victory and then the win report, in that order, each when its callback was given, and nothing else changes (nothing is sent) |
| BattleRoyaleSpec.OpponentDisconnectAsWritten | src/game/BattleRoyaleManager.js:323-345 | as written: it throws exactly when `playing` with an engine, and then the victory notice is made, the game is `finished`, the engine stays and no win report follows; otherwise it is the corrected handler |
| BattleRoyaleSpec.FindStanding | src/game/BattleRoyaleManager.js:349 | the first standing with the opponent's id, or none iff there is none |
| BattleRoyaleSpec.GameUpdate | src/game/BattleRoyaleManager.js:347-356 | with a list and an opponent, the opponent becomes the first standing with its id, and the notices gain one snapshot carrying it when the callback was given; nothing else changes; with no list, no opponent or no standing with that id the client is unchanged |
| BattleRoyaleSpec.Destroy | src/game/BattleRoyaleManager.js:393-404 | engine dropped, `leaveQueue` sent only when in `matchmaking`, then `waiting` |
| BattleRoyaleSpec.DestroyAsWritten | src/game/BattleRoyaleManager.js:393-404 | as written: it throws exactly when an engine exists, changing nothing; otherwise it is the corrected teardown |
| BattleRoyaleSpec.StepClock | src/game/BattleRoyaleManager.js:98-115 | the send time moves to `now` exactly when stats are sent, by a local update or by the first report of an engine being created |
| BattleRoyaleSpec.ThrottleSpaced | src/game/BattleRoyaleManager.js:98-115 | over any run of events, consecutive stat sends are more than 500 ms apart |
| BattleRoyaleSpec.StatsSentAppend | src/game/BattleRoyaleManager.js:153-162 | stat messages add up over concatenated outboxes |
| BattleRoyaleSpec.StepSends | src/game/BattleRoyaleManager.js:98-115 | an event only appends to the outbox, with one stat message exactly when it sends stats |
| BattleRoyaleSpec.StatsSentAtSendTimes | src/game/BattleRoyaleManager.js:98-115 | the stat messages sent over a run are exactly those at the send times |
| BattleRoyaleSpec.PendingNeverDrained | src/game/BattleRoyaleManager.js:273-288 | `pendingAttacks` only grows over any run of events |
| BattleRoyaleSpec.DisconnectOnce | src/game/BattleRoyaleManager.js:323-345 | a second disconnect does nothing |
| BattleRoyaleSpec.OverThenDisconnect | src/game/BattleRoyaleManager.js:239-345 | an opponent game over followed by a disconnect gives two victory notices |
| BattleRoyaleSpec.AttackLostAsWritten | src/game/BattleRoyaleManager.js:278 | while `playing` with an engine, the source throws and the attack is neither applied, queued nor reported |
| BattleRoyaleSpec.AttackLands | src/game/BattleRoyaleManager.js:273-288 | the corrected handler never loses an attack: it reaches the engine or `pendingAttacks` |
| BattleRoyaleSpec.LocalUpdatesAsWritten | src/game/BattleRoyaleManager.js:98-115 | local updates handled one by one as written, counting those that threw, at most one per update |
| BattleRoyaleSpec.StatsStuckAsWritten | src/game/BattleRoyaleManager.js:153-162 | as written, with an engine, once stats are due every later local update throws: nothing is sent, the send time never moves and the callback is never told |
| BattleRoyaleSpec.EngineStuckAsWritten | src/game/BattleRoyaleManager.js:217-236 | as written, with an engine, a game end keeps the engine and reports nothing, and a later `destroy` throws and keeps it too |
| BattleRoyaleSpec.MatchUnseenAfterStart | src/game/BattleRoyaleManager.js:195-215 | as written, after `gameStart` both the start and a later `matchFound` throw, and the interface sees no snapshot of either |
| BattleRoyaleSpec.StartAndEndShown | src/game/BattleRoyaleManager.js:210-236 | with the intended engine methods, the start shows a snapshot with the engine, and the end drops the engine and reports the outcome |
| BattleRoyale.BattleRoyaleManager.constructor | src/game/BattleRoyaleManager.js:5-29 | the fields of `NewClient` |
| BattleRoyale.BattleRoyaleManager.UpdateGameState | src/game/BattleRoyaleManager.js:376-390 | the fields of `BattleRoyaleSpec.UpdateGameState` |
| BattleRoyale.BattleRoyaleManager.SendStatsUpdate | src/game/BattleRoyaleManager.js:153-162 | one stats message appended, carrying the local player's id, score, lines, level and game-over flag, and whether an engine exists |
| BattleRoyale.BattleRoyaleManager.HandleLocalGameUpdate | src/game/BattleRoyaleManager.js:98-115 | the fields of `LocalGameUpdate` |
| BattleRoyale.BattleRoyaleManager.HandleLocalGameOver | src/game/BattleRoyaleManager.js:117-133 | the fields of `LocalGameOver` |
| BattleRoyale.BattleRoyaleManager.HandleLocalLinesClear | src/game/BattleRoyaleManager.js:135-150 | the fields of `LocalLinesClear` |
| BattleRoyale.BattleRoyaleManager.StartMatchmaking | src/game/BattleRoyaleManager.js:165-183 | the result and fields of `BattleRoyaleSpec.StartMatchmaking` |
| BattleRoyale.BattleRoyaleManager.CancelMatchmaking | src/game/BattleRoyaleManager.js:186-192 | the fields of `BattleRoyaleSpec.CancelMatchmaking` |
| BattleRoyale.BattleRoyaleManager.JoinRoom | src/game/BattleRoyaleManager.js:85-95 | the fields of `BattleRoyaleSpec.JoinRoom` |
| BattleRoyale.BattleRoyaleManager.HandleMatchFound | src/game/BattleRoyaleManager.js:195-208 | the fields of `MatchFound` |
| BattleRoyale.BattleRoyaleManager.CreateEngine | src/game/BattleRoyaleManager.js:74-78 | the fields of `BattleRoyaleSpec.CreateEngine` |
| BattleRoyale.BattleRoyaleManager.InitializeLocalEngine | src/game/BattleRoyaleManager.js:72-82 | the engine and fields of `BattleRoyaleSpec.InitializeLocalEngine` |
| BattleRoyale.BattleRoyaleManager.InitializeLocalGame | src/game/BattleRoyaleManager.js:359-373 | the fields of `BattleRoyaleSpec.InitializeLocalGame` |
| BattleRoyale.BattleRoyaleManager.HandleGameStart | src/game/BattleRoyaleManager.js:210-215 | the fields of `GameStart` |
| BattleRoyale.BattleRoyaleManager.HandleGameEnd | src/game/BattleRoyaleManager.js:217-236 | the fields of `GameEnd` |
| BattleRoyale.BattleRoyaleManager.HandleOpponentGameOver | src/game/BattleRoyaleManager.js:239-258 | the fields of `OpponentGameOver` |
| BattleRoyale.BattleRoyaleManager.HandleVictory | src/game/BattleRoyaleManager.js:261-271 | the fields of `Victory` |
| BattleRoyale.BattleRoyaleManager.HandleAttackReceived | src/game/BattleRoyaleManager.js:273-288 | the fields of the corrected `AttackReceived` |
| BattleRoyale.BattleRoyaleManager.HandleOpponentMove | src/game/BattleRoyaleManager.js:290-321 | the fields of `OpponentMove` |
| BattleRoyale.BattleRoyaleManager.HandleOpponentDisconnect | src/game/BattleRoyaleManager.js:323-345 | the fields of `OpponentDisconnect` |
| BattleRoyale.BattleRoyaleManager.HandleGameUpdate | src/game/BattleRoyaleManager.js:347-356 | the fields of `GameUpdate` |
| BattleRoyale.BattleRoyaleManager.Destroy | src/game/BattleRoyaleManager.js:393-404 | the fields of `BattleRoyaleSpec.Destroy` |

## Left out

- Rendering, screens, touch controls, network-address discovery, HTTP endpoints, server start-up and logging do not belong to the game logic.
- `src/multiplayer/SocketManager.js` is not part of this model. The client's socket is an outbox, and the server's messages arrive as calls on the handlers.
- Timers are explicit steps: `setTimeout`/`setInterval` become `CountdownElapsed`, `CountdownStep` and `GameLoopTick`. Real-time scheduling is not modelled.
- `Date.now()`, `Math.random()` and `uuidv4()` are parameters or a stream of outcomes.
- The formatting and floating-point helpers of `gameUtils.js` deal in locale strings and float division: `formatScore`, `formatGameTime`, `getAccessibilityLabel`, `calculateGameStats` and `generateSessionId`.
- Tetris.TetrisEngine.GetGameState: the engine's callbacks receive the engine's `State`. The view `onUpdate` would receive is `EngineSpec.ViewOf` of that state. Computing the painted board inside every event was too costly for the prover.
- Orientation (shape equal to the kind's shape turned `rotation/90` times) is a separate predicate, `EngineSpec.OrientedPieces`, beside the invariant `EngineSpec.Valid`.
- Versus.VersusGameManager.constructor: the two engines are held as `State` values, whose transitions `Tetris.TetrisEngine` is proved to perform, not as two engine objects.
- VersusSpec.GameSummary: the `duration` field is left out. `gameStartTime` is never assigned in `VersusGameManager.js`, so the source reports `NaN`.
- The three Versus callbacks (`onGameUpdate`, `onGameOver`, `onAttack`) are taken to be present. The screen always passes them. Each call is recorded as a notice.
- VersusSpec.DispatchFrame: about the notices, it states only that the list grows, not its exact contents. `VersusSpec.DrainNotices` states the contents for the drain.
- VersusSpec.DropPlayerLocksOnce: it states the player's own queue and draws, not the attacks added to the opponent's queue over the whole drop. Those are stated per down move, by `MovePlayerAttacks` and `MoveEvents`.
- BattleRoyaleSpec.LocalEngine: the client's engine is abstract and records the attacks applied to it. The boards and pieces the client would read from it are not modelled; a snapshot or a stats message only says whether there was an engine to read.
- BattleRoyaleSpec.UpdateGameState: models the engine reads the source intends. As written, `TetrisEngine` has no `getBoard`, `getCurrentPiece`, `getNextPiece` or `getGhostPiece`, so the call throws whenever an engine exists; `UpdateGameStateAsWritten` models that (see Findings).
- BattleRoyaleSpec.LocalGameUpdate: models the intended `getBoard`. As written, `sendStatsUpdate` throws when the stats are due and an engine exists; `LocalGameUpdateAsWritten` and `StatsStuckAsWritten` model that.
- BattleRoyaleSpec.CreateEngine: models the intended `getBoard` in the first report; as written it throws when an engine is being replaced and the stats are due (`InitializeLocalEngineAsWritten`).
- BattleRoyaleSpec.InitializeLocalEngine: inherits the `CreateEngine` line above; `InitializeLocalEngineAsWritten` is the code as written.
- BattleRoyaleSpec.StartMatchmaking: ends with the corrected `UpdateGameState`. As written, the closing `updateGameState` throws when an engine is left over, after `joinQueue` was sent, so `true` is not returned; `UpdateGameStateAsWritten` gives that state.
- BattleRoyaleSpec.CancelMatchmaking: ends with the corrected `UpdateGameState`; as written there is no snapshot while an engine exists (`UpdateGameStateAsWritten`).
- BattleRoyaleSpec.JoinRoom: ends with the corrected `UpdateGameState`; as written there is no snapshot while an engine exists (`UpdateGameStateAsWritten`).
- BattleRoyaleSpec.MatchFound: ends with the corrected `UpdateGameState`; `MatchFoundAsWritten` and `MatchUnseenAfterStart` model the throw once an engine exists.
- BattleRoyaleSpec.GameStart: ends with the corrected `UpdateGameState`; as written it always throws, as `GameStartAsWritten` states.
- BattleRoyaleSpec.GameEnd: models the intended engine `destroy`. As written, `handleGameEnd` throws there when an engine exists, keeping the engine and skipping `onGameOver` (`GameEndAsWritten`, `EngineStuckAsWritten`).
- BattleRoyaleSpec.OpponentDisconnect: goes through the corrected `GameEnd`; `OpponentDisconnectAsWritten` is the code as written.
- BattleRoyaleSpec.GameUpdate: ends with the corrected `UpdateGameState`; as written the opponent is replaced and then the snapshot throws while an engine exists (`UpdateGameStateAsWritten`).
- BattleRoyaleSpec.Destroy: models the intended engine `destroy`; as written it throws first when an engine exists, so nothing changes (`DestroyAsWritten`).
- BattleRoyaleSpec.Event: `handleGameStart` reads `Date.now()` once for the engine's first report and once for the start time; both are the event's one `now`.
- BattleRoyale.BattleRoyaleManager.UpdateGameState: performs the corrected `BattleRoyaleSpec.UpdateGameState`; the throw as written is `UpdateGameStateAsWritten`.
- BattleRoyale.BattleRoyaleManager.SendStatsUpdate: sends the message as though `getBoard` existed; as written it throws when an engine exists (`LocalGameUpdateAsWritten`).
- BattleRoyale.BattleRoyaleManager.HandleLocalGameUpdate: performs the corrected `LocalGameUpdate` (see its line above).
- BattleRoyale.BattleRoyaleManager.CreateEngine: performs the corrected `CreateEngine` (see its line above).
- BattleRoyale.BattleRoyaleManager.InitializeLocalEngine: performs the corrected `InitializeLocalEngine` (see its line above).
- BattleRoyale.BattleRoyaleManager.StartMatchmaking: performs the corrected `StartMatchmaking` (see its line above).
- BattleRoyale.BattleRoyaleManager.CancelMatchmaking: performs the corrected `CancelMatchmaking` (see its line above).
- BattleRoyale.BattleRoyaleManager.JoinRoom: performs the corrected `JoinRoom` (see its line above).
- BattleRoyale.BattleRoyaleManager.HandleMatchFound: performs the corrected `MatchFound` (see its line above).
- BattleRoyale.BattleRoyaleManager.HandleGameStart: performs the corrected `GameStart` (see its line above).
- BattleRoyale.BattleRoyaleManager.HandleGameEnd: performs the corrected `GameEnd` (see its line above).
- BattleRoyale.BattleRoyaleManager.HandleOpponentDisconnect: performs the corrected `OpponentDisconnect` (see its line above).
- BattleRoyale.BattleRoyaleManager.HandleGameUpdate: performs the corrected `GameUpdate` (see its line above).
- BattleRoyale.BattleRoyaleManager.Destroy: performs the corrected `Destroy` (see its line above).
- Tetris.TetrisEngine.constructor: a Dafny constructor returns nothing, so the update that `init()` hands to `onUpdate` is returned by `Tetris.NewEngine`, which wraps the constructor.
- ServerProtocol.Merge: `Object.assign` also copies any `id`, `username` or `roomId` in the payload onto the player. The server reads all three, but the model takes the payload to carry only statistics and does not model that overwrite. The player table is keyed by id here, so a renamed id cannot be expressed.
- RoomSpec.UpdateStatsMerges: uses `ServerProtocol.Merge`, so the overwrite of `id`, `username` and `roomId` named in its line is not modelled.
- ServerGateway.MergeStats: uses `ServerProtocol.Merge`, so the overwrite of `id`, `username` and `roomId` named in its line is not modelled.
- GameUtils.GenerateGarbageLine: JavaScript's default argument `width = 10` is not modelled, and callers pass the width. Width 0 is modelled: it gives the one-cell line `[0]`.
- The client's status texts and log messages are dropped. The notices keep the data fields only.
- `localPlayerData` and `opponentData` are values. The source hands the same objects to the screen callbacks, so later changes also show through the references handed out earlier. That aliasing is not modelled.
- `setupSocketCallbacks` only registers the handlers, and the getters only read fields. Each handler is its own method here.
- BattleRoyaleSpec.AttackReceived: models the intended call on the engine; as written `receiveAttack` does not exist and the call throws (`AttackReceivedAsWritten`, `AttackLostAsWritten`; see Findings, BattleRoyaleManager.js:278).
- BattleRoyale.BattleRoyaleManager.HandleAttackReceived: performs the corrected `BattleRoyaleSpec.AttackReceived`; the throw as written is `AttackReceivedAsWritten` (see Findings, BattleRoyaleManager.js:278).
- VersusSpec.Destroy: models the corrected `destroy`, which also ends a running countdown; as written the countdown goes on (`DestroyAsWritten`, `DestroyAsWrittenLeavesCountdown`; see Findings, VersusGameManager.js:109-125).
- Versus.VersusGameManager.Destroy: performs the corrected `VersusSpec.Destroy`; the code as written is `VersusSpec.DestroyAsWritten` (see Findings, VersusGameManager.js:109-125).
- BattleRoyaleSpec.Victory: the notice carries the server's report. The `type` field that `handleVictory` overwrites is not modelled.
- Players carry no `socketId` apart from their id, because the server sets both to `socket.id`.
- `socket.join` and the `RoomExcept` broadcast target are modelled only as a recipient. Room membership on the socket.io side is not modelled.
- The server's `joinQueue` state reply uses the queue length after pairing. `roomJoined` carries the roster.

## Findings

| source | as written | input that shows it | evidently intended | confidence | as-written member | corrected member |
|---|---|---|---|---|---|---|
| server/server.js:317-329 | the disconnect handler removes the player from the first room, in insertion order, that holds it; finished rooms keep their players | a player whose earlier game is finished queues again and is matched, then disconnects mid-game | the player leaves the room of its current game, so its opponent wins | not executed | ServerRooms.StaleRoomShadowsCurrent | ServerRooms.CurrentRoomDisconnectHandsWin |
| src/game/VersusGameManager.js:109-125 | `destroy` does not stop the countdown interval, which is local to `startCountdown` | `startGame()`, then `destroy()` before three seconds have passed | `destroy` ends the countdown as well | not executed | VersusSpec.DestroyAsWrittenLeavesCountdown | VersusSpec.Destroy |
| src/game/BattleRoyaleManager.js:278 | `localEngine.receiveAttack(lines)`, a method `TetrisEngine` does not have (it has `addGarbageLines`) | any `attackReceived` while `playing` | the attack is applied to the local engine | not executed | BattleRoyaleSpec.AttackLostAsWritten | BattleRoyaleSpec.AttackLands |
| src/game/BattleRoyaleManager.js:376-390 | `updateGameState` calls `getBoard`, `getCurrentPiece`, `getNextPiece` and `getGhostPiece`, which `TetrisEngine` does not have, whenever an engine exists | `gameStart` (it creates the engine), then `matchFound` | the snapshot carries the engine's board and pieces | not executed | BattleRoyaleSpec.MatchUnseenAfterStart | BattleRoyaleSpec.StartAndEndShown |
| src/game/BattleRoyaleManager.js:153-162 | `sendStatsUpdate` calls `getBoard`, which `TetrisEngine` does not have, whenever an engine exists | any local engine update more than 500 ms after the last send, with an engine | the stats go upstream with the board, at most every 500 ms | not executed | BattleRoyaleSpec.StatsStuckAsWritten | BattleRoyaleSpec.StatsSentAtSendTimes |
| src/game/BattleRoyaleManager.js:217-236 | `handleGameEnd` calls the engine's `destroy`, which `TetrisEngine` does not have, after setting `finished` | a `gameEnd` with an engine | the engine is dropped and `onGameOver` reports the outcome | not executed | BattleRoyaleSpec.EngineStuckAsWritten | BattleRoyaleSpec.StartAndEndShown |
| src/game/BattleRoyaleManager.js:393-404 | `destroy` calls the engine's `destroy` first, so it throws before `leaveQueue` and `waiting` | `destroy()` with an engine | the engine is dropped and the client is back to `waiting` | not executed | BattleRoyaleSpec.DestroyAsWritten | BattleRoyaleSpec.Destroy |
