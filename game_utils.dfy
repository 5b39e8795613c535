// The helpers of src/utils/gameUtils.js: scoring, level and speed tables,
// the attack table of the local versus mode, garbage rows, the top-rows
// game-over test, the Fisher-Yates shuffle, the check of network data and
// the sliding-window rate limiter.

module GameUtils {
  import opened Board
  import opened Pieces
  import opened Randomness
  import EngineSpec

  // SCORING and PROGRESSION of src/utils/constants.js
  const Single: nat := 40
  const Double: nat := 100
  const Triple: nat := 300
  const Tetris: nat := 1200
  const MaxLevel: int := 15

  // ---------------------------------------------------------------------
  // Score, level and fall speed

  /** `baseScores[lines] || 0`: the table covers 1..4 lines only. */
  function BaseScore(lines: int): nat
  {
    if lines == 1 then Single
    else if lines == 2 then Double
    else if lines == 3 then Triple
    else if lines == 4 then Tetris
    else 0
  }

  /** `calculateScore(lines, level)` */
  function CalculateScore(lines: int, level: int): (r: int)
    ensures !(1 <= lines <= 4) ==> r == 0
    ensures 1 <= lines <= 4 && level > 0 ==> r >= 40 * level
  {
    BaseScore(lines) * level
  }

  /** The utility agrees with the engine's own table on every count a lock
      can clear. */
  lemma ScoreMatchesEngine(lines: nat, level: int)
    requires lines <= 4
    ensures CalculateScore(lines, level) == EngineSpec.LineScore(lines, level)
  {
    assert EngineSpec.BaseScores[lines] == BaseScore(lines);
  }

  /** At a positive level, clearing more rows at once scores strictly more. */
  lemma ScoreGrowsWithLines(a: int, b: int, level: int)
    requires 1 <= a < b <= 4 && level > 0
    ensures CalculateScore(a, level) < CalculateScore(b, level)
  {
    assert BaseScore(a) < BaseScore(b);
    MulStrict(BaseScore(a), BaseScore(b), level);
  }

  lemma MulStrict(x: int, y: int, k: int)
    requires x < y && k > 0
    ensures x * k < y * k
  {
    assert y * k - x * k == (y - x) * k;
  }

  /** `calculateLevel(totalLines)`: one level per ten lines, capped. */
  function CalculateLevel(totalLines: int): (r: int)
    ensures r <= MaxLevel
    ensures totalLines >= 0 ==> r >= 1
  {
    var level := totalLines / 10 + 1;
    if level < MaxLevel then level else MaxLevel
  }

  /** More lines never lower the level. */
  lemma LevelMonotone(a: int, b: int)
    requires a <= b
    ensures CalculateLevel(a) <= CalculateLevel(b)
  {
    assert a / 10 <= b / 10;
  }

  /** Below 150 lines the utility's level is the engine's; from there on
      the engine keeps counting while the utility stays at the cap. */
  lemma LevelVersusEngine(totalLines: int)
    requires totalLines >= 0
    ensures totalLines < 150 ==> CalculateLevel(totalLines) == EngineSpec.LevelFor(totalLines)
    ensures totalLines >= 150 ==> CalculateLevel(totalLines) == MaxLevel < EngineSpec.LevelFor(totalLines)
  {
    if totalLines >= 150 {
      assert totalLines / 10 >= 15;
    } else {
      assert totalLines / 10 <= 14;
    }
  }

  /** `calculateFallSpeed(level)`: 1000 ms less 50 ms per level above the
      first, never below 50 ms. */
  function CalculateFallSpeed(level: int): (r: int)
    ensures r >= 50
    ensures level <= 20 ==> r == 1000 - (level - 1) * 50
  {
    var speed := 1000 - (level - 1) * 50;
    if speed > 50 then speed else 50
  }

  /** A higher level never falls slower. */
  lemma FallSpeedNonIncreasing(a: int, b: int)
    requires a <= b
    ensures CalculateFallSpeed(a) >= CalculateFallSpeed(b)
  {
    assert (a - 1) * 50 <= (b - 1) * 50;
  }

  /** The utility's speed is the drop interval the engine uses. */
  lemma FallSpeedMatchesEngine(level: int)
    ensures CalculateFallSpeed(level) == EngineSpec.IntervalFor(level)
  {
  }

  // ---------------------------------------------------------------------
  // Moves

  /** The part of a game state `isValidGameMove` looks at; `gameState`
      itself may be missing. */
  datatype ClientState = NoState | ClientState(isGameOver: bool)

  const ValidMoves: seq<string> := ["left", "right", "down", "rotate", "drop", "hold"]

  /** `isValidGameMove(moveType, gameState)` */
  function IsValidGameMove(moveType: string, gameState: ClientState): (ok: bool)
    ensures ok <==> gameState.ClientState? && !gameState.isGameOver && moveType in ValidMoves
  {
    if gameState.NoState? || gameState.isGameOver then false
    else moveType in ValidMoves
  }

  /** While a game runs, every command the engine understands passes the
      check, and nothing passes once the game is over or unknown. */
  lemma EngineMovesPass(moveType: string, gameState: ClientState)
    ensures gameState == ClientState(false) && moveType in ["left", "right", "down", "rotate", "drop"]
            ==> IsValidGameMove(moveType, gameState)
    ensures gameState.NoState? || gameState.isGameOver ==> !IsValidGameMove(moveType, gameState)
  {
  }

  // ---------------------------------------------------------------------
  // Attacks of the local versus mode

  /** `attackLines[clearedLines] || 0` */
  function BaseAttack(clearedLines: int): nat
  {
    if clearedLines == 2 then 1
    else if clearedLines == 3 then 2
    else if clearedLines == 4 then 4
    else 0
  }

  /** `calculateAttackLines(clearedLines, level)`: the table plus one row
      per five levels (`/` by 5 rounds down, as `Math.floor` does, for a
      negative level too). */
  function CalculateAttackLines(clearedLines: int, level: int): (r: int)
    ensures level >= 0 ==> r >= 0
    ensures clearedLines == 2 ==> r == 1 + level / 5
    ensures clearedLines == 3 ==> r == 2 + level / 5
    ensures clearedLines == 4 ==> r == 4 + level / 5
    ensures !(2 <= clearedLines <= 4) ==> r == level / 5
  {
    BaseAttack(clearedLines) + level / 5
  }

  /** The attack grows with the rows cleared and with the level. */
  lemma AttackMonotone(a: int, b: int, levelA: int, levelB: int)
    requires 1 <= a <= b <= 4 && levelA <= levelB
    ensures CalculateAttackLines(a, levelA) <= CalculateAttackLines(b, levelB)
  {
    assert levelA / 5 <= levelB / 5;
  }

  /** Below level 5 a single gives nothing and a Tetris four rows. */
  lemma AttackAtLowLevels(clearedLines: int, level: int)
    requires 0 <= level < 5
    ensures clearedLines == 1 ==> CalculateAttackLines(clearedLines, level) == 0
    ensures clearedLines == 4 ==> CalculateAttackLines(clearedLines, level) == 4
  {
  }

  // ---------------------------------------------------------------------
  // Garbage lines

  /** The row `generateGarbageLine(width)` builds when the hole is `hole`. */
  function GarbageLine(width: nat, hole: nat): (row: Row)
    requires hole < width
    ensures |row| == width
  {
    seq(width, c => if c == hole then Empty else Filled(GarbageColor))
  }

  /** A garbage line has exactly one empty cell, at its hole, and at the
      board's width it is the row the engine pushes in. */
  lemma GarbageLineOneHole(width: nat, hole: nat)
    requires hole < width
    ensures GarbageLine(width, hole)[hole] == Empty
    ensures forall c :: 0 <= c < width && c != hole ==> GarbageLine(width, hole)[c] == Filled(GarbageColor)
    ensures EmptyCount(GarbageLine(width, hole)) == 1
    ensures width == Width ==> GarbageLine(width, hole) == GarbageRow(hole)
  {
    EmptyCountOnlyAt(GarbageLine(width, hole), hole);
  }

  /** `generateGarbageLine(width)`: a row of grey cells with a random hole.
      With width 0 the array starts empty and the hole, at index
      `Math.floor(Math.random() * 0)` = 0, extends it to one empty cell. */
  method GenerateGarbageLine(width: nat, rng: Rng) returns (line: array<Cell>)
    modifies rng
    ensures fresh(line)
    ensures width > 0 ==> line[..] == GarbageLine(width, old(rng.Peek(width)))
    ensures width == 0 ==> line[..] == [Empty]
    ensures rng.drawn == old(rng.drawn) + 1
  {
    if width == 0 {
      var zero := rng.Below(1);
      line := new Cell[zero + 1](_ => Empty);
      return;
    }
    line := new Cell[width](_ => Filled(GarbageColor));
    var holePosition := rng.Below(width);
    line[holePosition] := Empty;
  }

  // ---------------------------------------------------------------------
  // Game over on the top rows

  /** The default of `checkGameOver`'s `topRows` parameter. */
  const DefaultTopRows: int := 2

  /** Some cell of the first topRows rows that the board has is taken. */
  predicate TopRowsTaken(board: Grid, topRows: int)
  {
    exists y, x :: 0 <= y < topRows && y < |board| && 0 <= x < |board[y]| && board[y][x] != Empty
  }

  /** `checkGameOver(board, topRows)`. The scan reads `board[y].length`
      for every y below topRows until it meets a taken cell, so when it
      runs past the last row it throws (`threw`) and returns nothing. */
  method CheckGameOver(board: Grid, topRows: int) returns (over: bool, threw: bool)
    ensures threw <==> |board| < topRows && !TopRowsTaken(board, topRows)
    ensures threw ==> !over
    ensures !threw ==> (over <==> TopRowsTaken(board, topRows))
  {
    var y := 0;
    while y < topRows
      invariant 0 <= y <= (if topRows < 0 then 0 else topRows)
      invariant y <= |board|
      invariant forall r, c :: 0 <= r < y && 0 <= c < |board[r]| ==> board[r][c] == Empty
    {
      if y == |board| {
        return false, true;
      }
      var x := 0;
      while x < |board[y]|
        invariant 0 <= x <= |board[y]|
        invariant forall c :: 0 <= c < x ==> board[y][c] == Empty
      {
        if board[y][x] != Empty {
          return true, false;
        }
        x := x + 1;
      }
      y := y + 1;
    }
    return false, false;
  }

  /** `checkGameOver(board)`: the two top rows. A board of fewer than two
      rows whose rows are all empty makes it throw. */
  method CheckGameOverByDefault(board: Grid) returns (over: bool, threw: bool)
    ensures threw <==> |board| < 2 && forall y, x :: 0 <= y < |board| && 0 <= x < |board[y]| ==> board[y][x] == Empty
    ensures threw ==> !over
    ensures !threw ==> (over <==> exists y, x :: 0 <= y < 2 && y < |board| && 0 <= x < |board[y]| && board[y][x] != Empty)
  {
    over, threw := CheckGameOver(board, DefaultTopRows);
  }

  /** A fresh engine board does not count as over; the scan runs past its
      last row, and throws, exactly when more than its twenty rows are
      asked for. */
  lemma EmptyTopNotOver(topRows: int)
    ensures !TopRowsTaken(EmptyBoard(), topRows)
    ensures (|EmptyBoard()| < topRows && !TopRowsTaken(EmptyBoard(), topRows)) <==> topRows > Height
  {
  }

  // ---------------------------------------------------------------------
  // Board copies

  /** `cloneBoard(board)`: a copy row by row. */
  function CloneBoard(board: Grid): (copy: Grid)
    ensures copy == board
  {
    seq(|board|, r requires 0 <= r < |board| => board[r][..])
  }

  // ---------------------------------------------------------------------
  // Shuffling

  function Swap<T>(s: seq<T>, i: nat, j: nat): (r: seq<T>)
    requires i < |s| && j < |s|
    ensures |r| == |s|
  {
    s[i := s[j]][j := s[i]]
  }

  /** The loop of `shuffleArray` from index i down to 1, the draws taken
      from the stream position `start` on. */
  function ShuffleFrom<T>(s: seq<T>, i: int, outcomes: nat -> nat, start: nat): (r: seq<T>)
    requires i < |s|
    ensures |r| == |s|
    decreases i
  {
    if i <= 0 then s
    else ShuffleFrom(Swap(s, i, outcomes(start) % (i + 1)), i - 1, outcomes, start + 1)
  }

  /** One turn of the loop: swap index i with the drawn index. */
  lemma ShuffleStep<T>(s: seq<T>, i: int, outcomes: nat -> nat, start: nat, j: nat, whole: seq<T>)
    requires 0 < i < |s| && j == outcomes(start) % (i + 1)
    requires ShuffleFrom(s, i, outcomes, start) == whole
    ensures ShuffleFrom(Swap(s, i, j), i - 1, outcomes, start + 1) == whole
  {
  }

  /** `shuffleArray(array)` for a given stream of random draws. */
  function Shuffle<T>(s: seq<T>, outcomes: nat -> nat, start: nat): (r: seq<T>)
  {
    ShuffleFrom(s, |s| - 1, outcomes, start)
  }

  /** How many draws a shuffle of n elements takes. */
  function ShuffleDraws(n: nat): nat
  {
    if n == 0 then 0 else n - 1
  }

  lemma SwapPermutes<T>(s: seq<T>, i: nat, j: nat)
    requires i < |s| && j < |s|
    ensures multiset(Swap(s, i, j)) == multiset(s)
  {
    if i != j {
      var t := s[i := s[j]];
      assert multiset(t) == multiset(s) - multiset{s[i]} + multiset{s[j]};
      assert multiset(t[j := s[i]]) == multiset(t) - multiset{t[j]} + multiset{s[i]};
    }
  }

  /** Every run of the loop rearranges the elements and loses or adds none. */
  lemma {:induction false} ShuffleFromPermutes<T>(s: seq<T>, i: int, outcomes: nat -> nat, start: nat)
    requires i < |s|
    ensures multiset(ShuffleFrom(s, i, outcomes, start)) == multiset(s)
    decreases i
  {
    if i > 0 {
      var j := outcomes(start) % (i + 1);
      SwapPermutes(s, i, j);
      ShuffleFromPermutes(Swap(s, i, j), i - 1, outcomes, start + 1);
    }
  }

  /** `shuffleArray` returns a permutation of its input. */
  lemma ShufflePermutes<T>(s: seq<T>, outcomes: nat -> nat, start: nat)
    ensures multiset(Shuffle(s, outcomes, start)) == multiset(s)
  {
    ShuffleFromPermutes(s, |s| - 1, outcomes, start);
  }

  /** `shuffleArray(array)`: Fisher-Yates on a copy; the input is only read. */
  method ShuffleArray<T>(a: array<T>, rng: Rng) returns (shuffled: array<T>)
    modifies rng
    ensures fresh(shuffled)
    ensures shuffled[..] == Shuffle(a[..], rng.outcomes, old(rng.drawn))
    ensures rng.drawn == old(rng.drawn) + ShuffleDraws(a.Length)
  {
    shuffled := new T[a.Length](k requires 0 <= k < a.Length reads a => a[k]);
    assert shuffled[..] == a[..];
    SwapDown(shuffled, rng);
  }

  /** The loop of `shuffleArray`: for i from the last index down to 1,
      swap index i with a random index in [0, i]. */
  method SwapDown<T>(shuffled: array<T>, rng: Rng)
    modifies shuffled, rng
    ensures shuffled[..] == Shuffle(old(shuffled[..]), rng.outcomes, old(rng.drawn))
    ensures rng.drawn == old(rng.drawn) + ShuffleDraws(shuffled.Length)
  {
    ghost var d0 := rng.drawn;
    ghost var whole := Shuffle(shuffled[..], rng.outcomes, d0);
    var i := shuffled.Length - 1;
    while i > 0
      invariant -1 <= i < shuffled.Length
      invariant i >= 0 ==> rng.drawn == d0 + (shuffled.Length - 1 - i)
      invariant i < 0 ==> shuffled.Length == 0 && rng.drawn == d0
      invariant ShuffleFrom(shuffled[..], i, rng.outcomes, rng.drawn) == whole
      decreases i
    {
      SwapTurn(shuffled, rng, i, whole);
      i := i - 1;
    }
  }

  /** One turn of that loop: index i swapped with a random index in [0, i]. */
  method SwapTurn<T>(shuffled: array<T>, rng: Rng, i: int, ghost whole: seq<T>)
    requires 0 < i < shuffled.Length
    requires ShuffleFrom(shuffled[..], i, rng.outcomes, rng.drawn) == whole
    modifies shuffled, rng
    ensures rng.drawn == old(rng.drawn) + 1
    ensures ShuffleFrom(shuffled[..], i - 1, rng.outcomes, rng.drawn) == whole
  {
    ghost var cur := shuffled[..];
    var j := rng.Below(i + 1);
    assert shuffled[..] == cur;
    ShuffleStep(cur, i, rng.outcomes, rng.drawn - 1, j, whole);
    SwapCells(shuffled, i, j);
  }

  /** `[shuffled[i], shuffled[j]] = [shuffled[j], shuffled[i]]` */
  method SwapCells<T>(a: array<T>, i: nat, j: nat)
    requires i < a.Length && j < a.Length
    modifies a
    ensures a[..] == Swap(old(a[..]), i, j)
  {
    a[i], a[j] := a[j], a[i];
  }

  /** `generatePieceBag()`: the seven piece letters in a random order. */
  method GeneratePieceBag(rng: Rng) returns (bag: array<Kind>)
    modifies rng
    ensures fresh(bag) && bag[..] == Shuffle(Kinds, rng.outcomes, old(rng.drawn))
    ensures rng.drawn == old(rng.drawn) + 6
  {
    var pieces := new Kind[7](k requires 0 <= k < 7 => Kinds[k]);
    assert pieces[..] == Kinds;
    bag := ShuffleArray(pieces, rng);
  }

  /** A bag holds each of the seven kinds exactly once. */
  lemma PieceBagHoldsEachKindOnce(outcomes: nat -> nat, start: nat)
    ensures |Shuffle(Kinds, outcomes, start)| == 7
    ensures forall k: Kind :: multiset(Shuffle(Kinds, outcomes, start))[k] == 1
  {
    ShufflePermutes(Kinds, outcomes, start);
    assert multiset(Kinds) == multiset{I, O, T, S, Z, J, L};
    forall k: Kind ensures multiset(Kinds)[k] == 1 {
      match k
      case I => case O => case T => case S => case Z => case J => case L =>
    }
  }

  // ---------------------------------------------------------------------
  // Network data

  /** A value received from the network: falsy, some other non-object, or
      an object with its own property names. */
  datatype NetData = Falsy | Primitive | Object(ownKeys: set<string>)

  /** `validateNetworkData(data, expectedFields)`: the data passes exactly
      when it is an object that has every expected field as an own
      property. */
  function ValidateNetworkData(data: NetData, expectedFields: seq<string>): (ok: bool)
    ensures ok <==> data.Object? && (set f | f in expectedFields) <= data.ownKeys
  {
    data.Object? && forall i :: 0 <= i < |expectedFields| ==> expectedFields[i] in data.ownKeys
  }

  /** Data passes for a list of fields exactly when it is an object that
      passes for each part of the list; more own keys never fail it. */
  lemma ValidateSplits(data: NetData, a: seq<string>, b: seq<string>)
    ensures ValidateNetworkData(data, a + b) <==> ValidateNetworkData(data, a) && ValidateNetworkData(data, b)
    ensures data.Object? ==> (ValidateNetworkData(data, a) <==> (set f | f in a) <= data.ownKeys)
  {
    if ValidateNetworkData(data, a) && ValidateNetworkData(data, b) {
      forall i | 0 <= i < |a + b| ensures (a + b)[i] in data.ownKeys {
        if i >= |a| { assert (a + b)[i] == b[i - |a|]; }
      }
    }
    if ValidateNetworkData(data, a + b) {
      forall i | 0 <= i < |b| ensures b[i] in data.ownKeys {
        assert (a + b)[|a| + i] == b[i];
      }
      forall i | 0 <= i < |a| ensures a[i] in data.ownKeys {
        assert (a + b)[i] == a[i];
      }
    }
    if data.Object? && (set f | f in a) <= data.ownKeys {
      forall i | 0 <= i < |a| ensures a[i] in data.ownKeys {
        assert a[i] in (set f | f in a);
      }
    }
  }

  // ---------------------------------------------------------------------
  // Rate limiting

  /** The `while` of the limiter: drop leading timestamps older than cutoff. */
  function Pruned(actions: seq<int>, cutoff: int): (r: seq<int>)
    ensures |r| <= |actions|
  {
    if actions != [] && actions[0] < cutoff then Pruned(actions[1..], cutoff) else actions
  }

  /** One call of the limiter at time now: whether it is allowed, and the
      timestamps kept afterwards. */
  function Admit(actions: seq<int>, now: int, maxActions: int, timeWindow: int): (bool, seq<int>)
  {
    var kept := Pruned(actions, now - timeWindow);
    if |kept| >= maxActions then (false, kept) else (true, kept + [now])
  }

  predicate Sorted(s: seq<int>)
  {
    forall i, j :: 0 <= i < j < |s| ==> s[i] <= s[j]
  }

  /** The window never holds more than maxActions timestamps, and a call is
      allowed exactly when fewer are left after pruning. */
  lemma AdmitBounded(actions: seq<int>, now: int, maxActions: int, timeWindow: int)
    requires |actions| <= maxActions
    ensures |Admit(actions, now, maxActions, timeWindow).1| <= maxActions
    ensures Admit(actions, now, maxActions, timeWindow).0
            <==> |Pruned(actions, now - timeWindow)| < maxActions
  {
  }

  /** With a clock that does not go back, the timestamps stay in order and
      every one kept is inside the window, none older than now - timeWindow. */
  lemma AdmitKeepsWindow(actions: seq<int>, now: int, maxActions: int, timeWindow: int)
    requires timeWindow >= 0
    requires Sorted(actions) && forall i :: 0 <= i < |actions| ==> actions[i] <= now
    ensures var kept := Admit(actions, now, maxActions, timeWindow).1;
      Sorted(kept) && forall i :: 0 <= i < |kept| ==> now - timeWindow <= kept[i] <= now
  {
    var kept := Pruned(actions, now - timeWindow);
    PrunedWindow(actions, now - timeWindow);
    PrunedSuffix(actions, now - timeWindow);
    var off := |actions| - |kept|;
    forall i | 0 <= i < |kept| ensures kept[i] <= now {
      assert kept[i] == actions[off + i];
    }
    SortedAppend(kept, now);
  }

  /** Pruning keeps the most recent timestamps, a suffix of the window. */
  lemma {:induction false} PrunedSuffix(actions: seq<int>, cutoff: int)
    ensures Pruned(actions, cutoff) == actions[|actions| - |Pruned(actions, cutoff)|..]
  {
    if actions != [] && actions[0] < cutoff {
      PrunedSuffix(actions[1..], cutoff);
      var r := Pruned(actions[1..], cutoff);
      assert actions[1..][|actions| - 1 - |r|..] == actions[|actions| - |r|..];
    }
  }

  /** Pruning a sorted window leaves it sorted with nothing older than the
      cutoff. */
  lemma {:induction false} PrunedWindow(actions: seq<int>, cutoff: int)
    requires Sorted(actions)
    ensures Sorted(Pruned(actions, cutoff))
    ensures forall i :: 0 <= i < |Pruned(actions, cutoff)| ==> Pruned(actions, cutoff)[i] >= cutoff
  {
    if actions != [] {
      if actions[0] < cutoff {
        var rest := actions[1..];
        assert Sorted(rest) by {
          forall i, j | 0 <= i < j < |rest| ensures rest[i] <= rest[j] {
            assert rest[i] == actions[i + 1] && rest[j] == actions[j + 1];
          }
        }
        PrunedWindow(rest, cutoff);
      } else {
        forall i | 0 <= i < |actions| ensures actions[i] >= cutoff {
          assert actions[0] <= actions[i];
        }
      }
    }
  }

  lemma SortedAppend(s: seq<int>, x: int)
    requires forall i :: 0 <= i < |s| ==> s[i] <= x
    requires Sorted(s)
    ensures Sorted(s + [x])
  {
    var t := s + [x];
    forall i, j | 0 <= i < j < |t| ensures t[i] <= t[j] {
      if j == |s| { assert t[i] == s[i]; } else { assert t[i] == s[i] && t[j] == s[j]; }
    }
  }

  /** `createRateLimiter(maxActions, timeWindow)`: the closure and the
      `actions` array it owns. */
  class RateLimiter {
    const maxActions: int
    const timeWindow: int
    var actions: seq<int>

    ghost predicate Valid()
      reads this
    {
      |actions| <= (if maxActions < 0 then 0 else maxActions)
    }

    constructor (maxActions: int, timeWindow: int)
      ensures this.maxActions == maxActions && this.timeWindow == timeWindow
      ensures actions == [] && Valid()
    {
      this.maxActions := maxActions;
      this.timeWindow := timeWindow;
      actions := [];
    }

    /** One call of the returned closure, `now` being `Date.now()`. */
    method Allow(now: int) returns (allowed: bool)
      requires Valid()
      modifies this
      ensures (allowed, actions) == Admit(old(actions), now, maxActions, timeWindow)
      ensures Valid()
    {
      var cutoff := now - timeWindow;
      while |actions| > 0 && actions[0] < cutoff
        invariant Pruned(actions, cutoff) == Pruned(old(actions), cutoff)
        invariant |actions| <= |old(actions)|
      {
        actions := actions[1..];
      }
      if |actions| >= maxActions {
        return false;
      }
      actions := actions + [now];
      return true;
    }
  }
}
