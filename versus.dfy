// The class VersusGameManager of src/game/VersusGameManager.js: its fields
// updated in place by its methods. Every method is proved to leave the
// fields as the function of the same name in VersusSpec says, so the
// properties proved there hold of the manager; the methods that the
// source runs outside the countdown keep what the manager keeps.
//
// The engines are held as their states and advanced by the EngineSpec
// transitions that the TetrisEngine class is proved to perform; the
// engine method the source calls is named next to each transition.
// `Math.random()` is the stream `outcomes`, fixed when the manager is
// built, and `drawn` says how much of it has been used.

module Versus {
  import opened Wrappers
  import opened Board
  import opened EngineSpec
  import opened Tetris
  import GameUtils
  import opened VersusSpec

  class VersusGameManager {
    var player1: Option<State>
    var player2: Option<State>
    var gameState: Phase
    var winner: Option<Slot>
    var queue1: seq<PendingAttack>
    var queue2: seq<PendingAttack>
    var gameLoop: bool
    var lastUpdateTime: int
    var countingDown: bool
    var count: int
    var notices: seq<Notice>
    var drawn: nat
    const outcomes: nat -> nat

    /** The fields as one value. */
    function Model(): Manager
      reads this
    {
      Manager(player1, player2, gameState, winner, queue1, queue2,
              gameLoop, lastUpdateTime, countingDown, count, notices, drawn)
    }

    ghost predicate Valid()
      reads this
    {
      Consistent(Model())
    }

    /** `constructor` and `initializePlayers()` at time `now`, the stream
        used up to `drawn`. Each engine's `init()` reports an update
        before the manager holds it: the update handler finds the queue
        empty and tells the interface. */
    constructor(outcomes: nat -> nat, drawn: nat, now: int)
      ensures Model() == NewManager(outcomes, drawn, now) && Valid()
      ensures this.outcomes == outcomes
    {
      this.outcomes := outcomes;
      player1, player2 := None, None;
      gameState, winner := Waiting, None;
      queue1, queue2 := [], [];
      gameLoop, lastUpdateTime := false, now;
      countingDown, count := false, 0;
      notices := [];
      this.drawn := drawn + 4;
      new;
      ghost var empty := Model();
      var first := Init(KindAt(outcomes, drawn), KindAt(outcomes, drawn + 1));
      NotifyGameUpdate();
      player1 := Some(first);
      ghost var withFirst := Model();
      assert withFirst == empty.(notices := [GameUpdate(Current(empty))]).(player1 := Some(first));
      var second := Init(KindAt(outcomes, drawn + 2), KindAt(outcomes, drawn + 3));
      NotifyGameUpdate();
      player2 := Some(second);
      assert Model() == withFirst.(notices := withFirst.notices + [GameUpdate(Current(withFirst))], player2 := Some(second));
      NewManagerFacts(outcomes, drawn, now);
    }

    method PutEngine(p: Slot, s: State)
      modifies this
      ensures Model() == SetEngine(old(Model()), p, s)
    {
      if p == Player1 { player1 := Some(s); } else { player2 := Some(s); }
    }

    /** `attackQueue[player].shift()` */
    method Shift(p: Slot) returns (a: PendingAttack)
      requires QueueOf(Model(), p) != []
      modifies this
      ensures a == old(QueueOf(Model(), p))[0]
      ensures Model() == SetQueue(old(Model()), p, old(QueueOf(Model(), p))[1..])
    {
      if p == Player1 {
        a := queue1[0];
        queue1 := queue1[1..];
      } else {
        a := queue2[0];
        queue2 := queue2[1..];
      }
    }

    /** `getCompleteGameState()` */
    method GetCompleteGameState() returns (c: CompleteState)
      ensures c == Reported(Current(Model()))
    {
      var shown1 := ShownOf(player1);
      var shown2 := ShownOf(player2);
      c := CompleteState(gameState, winner, ViewOfShown(shown1), ViewOfShown(shown2), |queue1|, |queue2|);
    }

    /** `getGameSummary()`, without its duration. */
    method GetGameSummary() returns (s: Summary)
      ensures s == GameSummary(Model())
    {
      s := Summary(winner, TotalsOf(player1), TotalsOf(player2));
    }

    /** `notifyGameUpdate()` */
    method NotifyGameUpdate()
      modifies this
      ensures Model() == Notify(old(Model()))
    {
      notices := notices + [GameUpdate(Current(Model()))];
    }

    /** `sendAttack(fromPlayer, toPlayer, lines)` at time `now`. */
    method SendAttack(fromPlayer: Slot, toPlayer: Slot, lines: int, now: int)
      modifies this
      ensures Model() == VersusSpec.SendAttack(old(Model()), fromPlayer, toPlayer, lines, now)
    {
      var attack := PendingAttack(lines, now, fromPlayer);
      if toPlayer == Player1 { queue1 := queue1 + [attack]; } else { queue2 := queue2 + [attack]; }
      notices := notices + [AttackNotice(fromPlayer, toPlayer, lines)];
    }

    /** `handlePlayerNLinesClear(lines)` */
    method HandleLinesClear(p: Slot, lines: nat, now: int)
      requires EngineOf(Model(), p).Some?
      modifies this
      ensures Model() == VersusSpec.HandleLinesClear(old(Model()), p, lines, now)
    {
      if lines >= 2 {
        var level := EngineOf(Model(), p).value.level;
        SendAttack(p, Opponent(p), GameUtils.CalculateAttackLines(lines, level), now);
      }
    }

    /** `stopGameLoop()` */
    method StopGameLoop()
      modifies this
      ensures Model() == VersusSpec.StopGameLoop(old(Model()))
    {
      gameLoop := false;
    }

    /** `handlePlayerNGameOver()` */
    method HandleGameOver(p: Slot)
      modifies this
      ensures Model() == VersusSpec.HandleGameOver(old(Model()), p)
    {
      winner := Some(Opponent(p));
      gameState := Finished;
      StopGameLoop();
      var summary := GetGameSummary();
      notices := notices + [GameOverNotice(p, summary)];
    }

    /** `processAttackQueue(player)`: the loop shifts one attack at a time
        into the engine; the engine's update callback runs the update
        handler, which drains the rest of the queue before the loop looks
        at it again. */
    method ProcessAttackQueue(p: Slot)
      requires Ready(Model(), p)
      modifies this
      ensures Model() == VersusSpec.ProcessAttackQueue(old(Model()), p, outcomes)
      decreases |QueueOf(Model(), p)|, 0
    {
      while QueueOf(Model(), p) != []
        invariant Ready(Model(), p)
        invariant |QueueOf(Model(), p)| <= |QueueOf(old(Model()), p)|
        invariant VersusSpec.ProcessAttackQueue(Model(), p, outcomes)
          == VersusSpec.ProcessAttackQueue(old(Model()), p, outcomes)
        decreases |QueueOf(Model(), p)|
      {
        ghost var before := Model();
        var attack := Shift(p);
        // engine.addGarbageLines(attack.lines), up to its update callback
        var garbaged := Attacked(EngineOf(Model(), p).value, attack, outcomes, drawn);
        PutEngine(p, garbaged);
        drawn := drawn + Rows(attack.lines);
        assert Model() == ShiftAttack(before, p, outcomes);
        HandleUpdate(p);
        assert VersusSpec.ProcessAttackQueue(before, p, outcomes)
          == VersusSpec.ProcessAttackQueue(Model(), p, outcomes);
      }
    }

    /** `handlePlayerNUpdate(gameState)` */
    method HandleUpdate(p: Slot)
      requires Ready(Model(), p)
      modifies this
      ensures Model() == VersusSpec.HandleUpdate(old(Model()), p, outcomes)
      decreases |QueueOf(Model(), p)|, 1
    {
      ProcessAttackQueue(p);
      NotifyGameUpdate();
    }

    /** The handler registered for one engine callback. */
    method HandleEvent(p: Slot, e: Event, now: int)
      requires Ready(Model(), p)
      modifies this
      ensures Model() == VersusSpec.HandleEvent(old(Model()), p, e, now, outcomes)
    {
      match e
      case LinesCleared(c) => HandleLinesClear(p, c, now);
      case GameOver => HandleGameOver(p);
      case Updated(_) => HandleUpdate(p);
    }

    /** The handlers of one engine call's callbacks, in the order they fire. */
    method Dispatch(p: Slot, events: seq<Event>, now: int)
      requires Ready(Model(), p)
      modifies this
      ensures Model() == VersusSpec.Dispatch(old(Model()), p, events, now, outcomes)
    {
      var i := 0;
      while i < |events|
        invariant 0 <= i <= |events| && Ready(Model(), p)
        invariant VersusSpec.Dispatch(Model(), p, events[i..], now, outcomes)
          == VersusSpec.Dispatch(old(Model()), p, events, now, outcomes)
      {
        assert events[i..][1..] == events[i + 1..];
        HandleEvent(p, events[i], now);
        i := i + 1;
      }
    }

    /** Puts an engine call's new state in place, counting the draw of a
        lock, and runs the handlers of its callbacks. */
    method Apply(p: Slot, st: Step, locked: bool, now: int)
      requires Consistent(Model()) && EngineOf(Model(), p).Some? && EngineSpec.Valid(st.state)
      modifies this
      ensures Model() == VersusSpec.Dispatch(Stepped(old(Model()), p, st.state, locked), p, st.events, now, outcomes)
    {
      ghost var stepped := Stepped(Model(), p, st.state, locked);
      SteppedConsistent(Model(), p, st.state, locked);
      PutEngine(p, st.state);
      if locked {
        drawn := drawn + 1;
      }
      assert Model() == stepped;
      Dispatch(p, st.events, now);
    }

    /** `movePlayerN(direction)`: the engine's `movePiece(direction)`. */
    method MovePlayer(p: Slot, d: Direction, now: int) returns (moved: bool)
      requires Valid()
      modifies this
      ensures (Model(), moved) == VersusSpec.MovePlayer(old(Model()), p, d, now, outcomes)
      ensures Valid()
    {
      if !Accepts(Model(), p) {
        return false;
      }
      ghost var m := Model();
      var s, k := EngineOf(Model(), p).value, KindAt(outcomes, drawn);
      var st := Move(s, d, k);
      MoveKeepsValid(s, d, k);
      Apply(p, st, Locks(s, d), now);
      moved := st.moved;
      MovePlayerKeeps(m, p, d, now, outcomes);
    }

    /** `rotatePlayerN()`: the engine's `rotatePieceOnBoard()`. */
    method RotatePlayer(p: Slot, now: int) returns (rotated: bool)
      requires Valid()
      modifies this
      ensures (Model(), rotated) == VersusSpec.RotatePlayer(old(Model()), p, now, outcomes)
      ensures Valid()
    {
      if !Accepts(Model(), p) {
        return false;
      }
      ghost var m := Model();
      var s := EngineOf(Model(), p).value;
      var st := RotateOnBoard(s);
      RotateKeepsValid(s);
      Apply(p, st, false, now);
      rotated := st.moved;
      RotatePlayerKeeps(m, p, now, outcomes);
    }

    /** One pass of the loop of the engine's `dropPiece()`: `movePiece('down')`. */
    method DropTurn(p: Slot, now: int) returns (moved: bool)
      requires Valid() && EngineOf(Model(), p).Some? && !countingDown
      modifies this
      ensures Model() == VersusSpec.DropTurn(old(Model()), p, now, outcomes)
      ensures moved == Move(EngineOf(old(Model()), p).value, Down, KindAt(outcomes, old(drawn))).moved
    {
      var s, k := EngineOf(Model(), p).value, KindAt(outcomes, drawn);
      var st := Move(s, Down, k);
      MoveKeepsValid(s, Down, k);
      Apply(p, st, Locks(s, Down), now);
      moved := st.moved;
    }

    /** `dropPlayerN()`: the engine's `dropPiece()`, down moves until one fails. */
    method DropPlayer(p: Slot, now: int)
      requires Valid()
      modifies this
      ensures Model() == VersusSpec.DropPlayer(old(Model()), p, now, outcomes)
      ensures Valid()
    {
      if !Accepts(Model(), p) {
        return;
      }
      ghost var target := DropLoop(Model(), p, now, outcomes);
      var going := true;
      while going
        invariant Valid() && EngineOf(Model(), p).Some? && !countingDown
        invariant going ==> DropLoop(Model(), p, now, outcomes) == target
        invariant !going ==> Model() == target
        decreases going, Height - EngineOf(Model(), p).value.current.y
      {
        MoveDownAdvances(EngineOf(Model(), p).value, KindAt(outcomes, drawn));
        going := DropTurn(p, now);
      }
    }

    /** `engine.update(deltaTime)` inside the game loop. */
    method TickPlayer(p: Slot, delta: int, now: int)
      requires Valid() && EngineOf(Model(), p).Some? && !countingDown
      modifies this
      ensures Model() == VersusSpec.TickPlayer(old(Model()), p, delta, now, outcomes)
    {
      var s, k := EngineOf(Model(), p).value, KindAt(outcomes, drawn);
      var st := Tick(s, delta, k);
      TickKeepsValid(s, delta, k);
      Apply(p, st, TickLocks(s, delta), now);
    }

    /** One run of the game-loop callback at time `now`; false where the
        source throws. */
    method GameLoopTick(now: int) returns (ok: bool)
      requires Valid() && gameLoop
      modifies this
      ensures Model() == VersusSpec.GameLoopTick(old(Model()), now, outcomes)
      ensures ok == !LoopThrows(old(Model()))
      ensures Valid()
    {
      if gameState != Playing {
        return true;
      }
      var delta := Elapsed(Model(), now);
      SetClock(now);
      ok := LoopRun(delta, now);
    }

    /** `lastUpdateTime = currentTime` */
    method SetClock(now: int)
      modifies this
      ensures Model() == Timed(old(Model()), now)
    {
      lastUpdateTime := now;
    }

    /** The game loop's body once its clock has moved; false where the
        source throws. */
    method LoopRun(delta: int, now: int) returns (ok: bool)
      requires Valid() && !countingDown
      modifies this
      ensures Model() == VersusSpec.LoopRun(old(Model()), delta, now, outcomes)
      ensures ok == old(player1).Some?
      ensures Valid()
    {
      if player1.None? {
        // player1Engine.update on null
        return false;
      }
      TickBoth(delta, now);
      ok := true;
    }

    /** Both engines' `update(deltaTime)`, player 1's first. */
    method TickBoth(delta: int, now: int)
      requires Valid() && player1.Some? && !countingDown
      modifies this
      ensures Model() == TickAll(old(Model()), BothSlots, delta, now, outcomes)
    {
      TickBothIs(Model(), delta, now, outcomes);
      TickPlayer(Player1, delta, now);
      TickPlayer(Player2, delta, now);
    }

    /** `startGame()` */
    method StartGame() returns (started: bool)
      requires Valid()
      modifies this
      ensures (Model(), started) == VersusSpec.StartGame(old(Model()))
      ensures Valid()
    {
      if gameState != Waiting {
        return false;
      }
      gameState := Countdown;
      StartCountdown();
      started := true;
    }

    /** `startCountdown()`: the counter at 3, the interface told, and the
        1 s interval set. */
    method StartCountdown()
      modifies this
      ensures Model() == VersusSpec.StartCountdown(old(Model()))
    {
      count := 3;
      NotifyGameUpdate();
      countingDown := true;
    }

    /** `startGameLoop()` at time `now`. */
    method StartGameLoop(now: int)
      modifies this
      ensures Model() == VersusSpec.StartGameLoop(old(Model()), now)
    {
      lastUpdateTime := now;
      gameLoop := true;
    }

    /** One run of the countdown callback at time `now`. */
    method CountdownStep(now: int)
      requires Valid() && countingDown
      modifies this
      ensures Model() == VersusSpec.CountdownStep(old(Model()), now)
      ensures Valid()
    {
      CountdownKeeps(Model(), now);
      count := count - 1;
      if count == 0 {
        countingDown := false;
        gameState := Playing;
        StartGameLoop(now);
        NotifyGameUpdate();
      } else {
        NotifyGameUpdate();
      }
    }

    /** `pauseGame()` */
    method PauseGame()
      requires Valid()
      modifies this
      ensures Model() == VersusSpec.PauseGame(old(Model()))
      ensures Valid()
    {
      if gameState == Playing {
        gameState := Paused;
        NotifyGameUpdate();
      }
    }

    /** `resumeGame()` at time `now`. */
    method ResumeGame(now: int)
      requires Valid()
      modifies this
      ensures Model() == VersusSpec.ResumeGame(old(Model()), now)
      ensures Valid()
    {
      if gameState == Paused {
        gameState := Playing;
        lastUpdateTime := now;
        NotifyGameUpdate();
      }
    }

    /** `destroy()`, clearing the countdown interval as well. */
    method Destroy()
      requires Valid()
      modifies this
      ensures Model() == VersusSpec.Destroy(old(Model()))
      ensures Valid()
    {
      DestroyKeeps(Model());
      StopGameLoop();
      player1, player2 := None, None;
      queue1, queue2 := [], [];
      countingDown := false;
    }
  }
}
