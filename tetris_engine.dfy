// The class TetrisEngine of src/game/TetrisEngine.js: one player's board,
// active and next piece, counters and gravity timer, updated in place by
// its methods. Every method is proved to change the engine exactly as the
// transition of the same name in EngineSpec says, and to report the same
// callbacks, so the properties proved there hold of the engine.

module Tetris {
  import opened Board
  import opened Pieces
  import opened EngineSpec
  import opened Randomness

  /** `Object.keys(TETRIS_PIECES)[Math.floor(Math.random() * 7)]` for the
      i-th draw of the stream. */
  function KindAt(outcomes: nat -> nat, i: nat): Kind
  {
    Kinds[outcomes(i) % |Kinds|]
  }

  /** Board b is board orig with the cells of piece p painted that come
      before shape cell (i, j) in row-major order. */
  ghost predicate Painted(b: Grid, orig: Grid, p: Piece, i: int, j: int)
  {
    |b| == |orig| && (forall r :: 0 <= r < |b| ==> |b[r]| == |orig[r]|)
    && forall r, c :: 0 <= r < |b| && 0 <= c < |b[r]| ==>
         b[r][c] == (if Covers(p, r, c) && (r - p.y < i || (r - p.y == i && c - p.x < j))
                     then Filled(p.color) else orig[r][c])
  }

  /** Finishing a shape row is starting the next one. */
  lemma PaintedNextRow(b: Grid, orig: Grid, p: Piece, i: int)
    requires 0 <= i < |p.shape| && Painted(b, orig, p, i, |p.shape[i]|)
    ensures Painted(b, orig, p, i + 1, 0)
  {
  }

  /** Once every shape row is done, the board is the overlay. */
  lemma PaintedAll(b: Grid, orig: Grid, p: Piece)
    requires Painted(b, orig, p, |p.shape|, 0)
    ensures b == Overlay(orig, p)
  {
    var o := Overlay(orig, p);
    forall r | 0 <= r < |b| ensures b[r] == o[r] {
      forall c | 0 <= c < |b[r]| ensures b[r][c] == o[r][c] {
      }
    }
  }

  /** One more garbage row from the stream is one more push. */
  lemma GarbageFromStream(g: Grid, outcomes: nat -> nat, start: nat, i: nat)
    requires |g| > 0
    ensures AddGarbage(g, Draws(outcomes, start, i + 1, Width))
         == PushGarbage(AddGarbage(g, Draws(outcomes, start, i, Width)), outcomes(start + i) % Width)
  {
    var front := Draws(outcomes, start, i, Width);
    var holes := Draws(outcomes, start, i + 1, Width);
    assert holes[..i] == front by {
      forall j | 0 <= j < i ensures holes[..i][j] == front[j] {
      }
    }
    assert holes[i] == outcomes(start + i) % Width;
    assert AddGarbage(g, holes) == PushGarbage(AddGarbage(g, holes[..i]), holes[i]);
  }

  /** The loop of `clearLines()`: scan from the bottom row up; a full row
      is removed, an empty row is put on top and the same row index is
      looked at again. */
  method ClearRows(g: Grid) returns (rows: Grid, cleared: nat)
    requires |g| == Height
    ensures rows == Compact(g) && cleared == FullCount(g)
  {
    rows := g;
    // g[..p]: the rows not looked at yet
    ghost var p := |g|;
    cleared := 0;
    var y := Height - 1;
    ClearingStart(g);
    while y >= 0
      invariant 0 <= p <= |g| && -1 <= y
      invariant cleared == FullCount(g[p..])
      invariant rows == Clearing(g, p, cleared)
      invariant p > 0 ==> y == cleared + p - 1
      invariant p == 0 ==> y < cleared
      decreases y + 1 + p
    {
      ClearingRows(g, p, cleared, y);
      if Full(rows[y]) {
        ClearingRemove(g, p, cleared);
        rows := [EmptyRow()] + rows[..y] + rows[y + 1..];
        cleared := cleared + 1;
        p := p - 1;
      } else {
        if p > 0 {
          ClearingKeep(g, p, cleared);
          p := p - 1;
        }
        y := y - 1;
      }
    }
    ClearingEnd(g);
  }

  /** `generatePiece()`: a new piece of a kind drawn from `rng`. */
  method GeneratePiece(rng: Rng) returns (p: Piece)
    modifies rng
    ensures p == Spawn(KindAt(rng.outcomes, old(rng.drawn)))
    ensures rng.drawn == old(rng.drawn) + 1
  {
    var index := rng.Below(|Kinds|);
    var kind := Kinds[index];
    p := Piece(kind, ShapeOf(kind), ColorOf(kind), Width / 2 - |ShapeOf(kind)[0]| / 2, 0, 0);
  }

  class TetrisEngine {
    var board: Grid
    var currentPiece: Piece
    var nextPiece: Piece
    var score: int
    var level: int
    var lines: int
    var isGameOver: bool
    var dropTime: int
    var dropInterval: int
    /** The source of `Math.random()`. */
    const rng: Rng

    /** The engine's fields as a state value. */
    function Snapshot(): State
      reads this
    {
      State(board, currentPiece, nextPiece, score, level, lines, dropTime, dropInterval, isGameOver)
    }

    /** The invariant of every engine (see EngineSpec.Valid and Oriented). */
    ghost predicate Valid()
      reads this
    {
      EngineSpec.Valid(Snapshot()) && OrientedPieces(Snapshot())
    }

    /** The kind the next random piece will have. */
    ghost function NextKind(): Kind
      reads this, rng
    {
      KindAt(rng.outcomes, rng.drawn)
    }

    /** `constructor` and `init()`: an empty board, two random pieces. */
    constructor (rng: Rng)
      modifies rng
      ensures this.rng == rng
      ensures Snapshot() == Init(KindAt(rng.outcomes, old(rng.drawn)), KindAt(rng.outcomes, old(rng.drawn) + 1))
      ensures rng.drawn == old(rng.drawn) + 2
    {
      var first := GeneratePiece(rng);
      var second := GeneratePiece(rng);
      this.rng := rng;
      board := EmptyBoard();
      currentPiece, nextPiece := first, second;
      score := 0;
      level := 1;
      lines := 0;
      isGameOver := false;
      dropTime := 0;
      dropInterval := InitialInterval;
    }

    /** `isValidMove(piece, newX, newY, shape)`: every filled cell of the
        shape at anchor (newX, newY) is inside the columns, above the floor
        and, when on the board, on an empty cell. */
    method IsValidMove(shape: Shape, newX: int, newY: int) returns (ok: bool)
      requires WellShaped(board)
      ensures ok == Fits(board, shape, newX, newY)
    {
      var y := 0;
      while y < |shape|
        invariant 0 <= y <= |shape|
        invariant forall r, c :: 0 <= r < y && 0 <= c < |shape[r]| && shape[r][c] ==> CellFree(board, newX + c, newY + r)
      {
        var x := 0;
        while x < |shape[y]|
          invariant 0 <= x <= |shape[y]|
          invariant forall r, c :: 0 <= r < y && 0 <= c < |shape[r]| && shape[r][c] ==> CellFree(board, newX + c, newY + r)
          invariant forall c :: 0 <= c < x && shape[y][c] ==> CellFree(board, newX + c, newY + y)
        {
          if shape[y][x] {
            var boardX := newX + x;
            var boardY := newY + y;
            if boardX < 0 || boardX >= Width || boardY >= Height {
              assert !CellFree(board, newX + x, newY + y);
              return false;
            }
            if boardY >= 0 && board[boardY][boardX] != Empty {
              assert !CellFree(board, newX + x, newY + y);
              return false;
            }
          }
          x := x + 1;
        }
        y := y + 1;
      }
      return true;
    }

    /** `movePiece(direction)` */
    method MovePiece(d: Direction) returns (moved: bool, events: seq<Event>)
      requires Playable(Snapshot())
      modifies this, rng
      ensures var st := Move(old(Snapshot()), d, old(NextKind()));
        Snapshot() == st.state && events == st.events && moved == st.moved
      ensures rng.drawn == old(rng.drawn) + (if Locks(old(Snapshot()), d) then 1 else 0)
    {
      ghost var s := Snapshot();
      ghost var k := NextKind();
      if isGameOver {
        MoveFails(s, d, k);
        return false, [];
      }
      var newX, newY := currentPiece.x, currentPiece.y;
      match d {
        case Left => newX := newX - 1;
        case Right => newX := newX + 1;
        case Down => newY := newY + 1;
        case Other =>
      }
      assert (newX, newY) == Target(s.current, d);
      var placed := currentPiece.(x := newX, y := newY);
      var fits := IsValidMove(placed.shape, newX, newY);
      assert fits == Fits(s.board, s.current.shape, newX, newY);
      if fits {
        MoveSucceeds(s, d, k);
        currentPiece := placed;
        assert Snapshot() == Move(s, d, k).state;
        return true, [Updated(Snapshot())];
      }
      events := [];
      if d == Down {
        MoveDownLocks(s, k);
        events := LockPiece();
      } else {
        MoveFails(s, d, k);
      }
      moved := false;
    }

    /** `rotatePieceOnBoard()`: turn the piece a quarter clockwise where it is,
        if it fits there. */
    method RotatePieceOnBoard() returns (rotated: bool, events: seq<Event>)
      requires Playable(Snapshot())
      modifies this
      ensures var st := RotateOnBoard(old(Snapshot()));
        Snapshot() == st.state && events == st.events && rotated == st.moved
    {
      ghost var s := Snapshot();
      if isGameOver {
        RotateFails(s);
        return false, [];
      }
      var turned := Turned(currentPiece);
      var fits := IsValidMove(turned.shape, turned.x, turned.y);
      assert fits == Fits(s.board, Rotate(s.current.shape), s.current.x, s.current.y);
      if fits {
        RotateSucceeds(s);
        currentPiece := turned;
        assert Snapshot() == RotateOnBoard(s).state;
        return true, [Updated(Snapshot())];
      }
      RotateFails(s);
      return false, [];
    }

    /** `dropPiece()`: `while (this.movePiece('down')) {}` */
    method DropPiece() returns (events: seq<Event>)
      requires Playable(Snapshot())
      modifies this, rng
      ensures var st := Drop(old(Snapshot()), old(NextKind()));
        Snapshot() == st.state && events == st.events
      ensures rng.drawn == old(rng.drawn) + (if old(isGameOver) then 0 else 1)
    {
      ghost var s0 := Snapshot();
      ghost var k := NextKind();
      ghost var d0 := rng.drawn;
      ghost var whole := Drop(s0, k);
      var moved := true;
      events := [];
      while moved
        invariant moved ==>
          Playable(Snapshot()) && NextKind() == k && rng.drawn == d0 && isGameOver == s0.isGameOver
          && whole == Step(Drop(Snapshot(), k).state, events + Drop(Snapshot(), k).events, false)
        invariant !moved ==>
          Snapshot() == whole.state && events == whole.events
          && rng.drawn == d0 + (if s0.isGameOver then 0 else 1)
        decreases if moved then Height - currentPiece.y + 1 else 0
      {
        ghost var cur := Snapshot();
        DropStep(cur, k);
        var ev;
        moved, ev := MovePiece(Down);
        if moved {
          AppendAssoc(events, ev, Drop(Snapshot(), k).events);
        }
        events := events + ev;
      }
    }

    /** Paint the active piece onto the board (the first loop of
        `lockPiece`). Rows above the top are skipped, as in the source. */
    method PlacePiece()
      requires WellShaped(board) && ValidPiece(currentPiece)
      modifies this`board
      ensures board == Overlay(old(board), currentPiece)
      ensures Snapshot() == old(Snapshot()).(board := board)
    {
      var b := board;
      ghost var orig := b;
      var p := currentPiece;
      var y := 0;
      while y < |p.shape|
        invariant 0 <= y <= |p.shape|
        invariant Painted(b, orig, p, y, 0)
      {
        var x := 0;
        while x < |p.shape[y]|
          invariant 0 <= x <= |p.shape[y]|
          invariant Painted(b, orig, p, y, x)
        {
          if p.shape[y][x] {
            var boardY := p.y + y;
            var boardX := p.x + x;
            if boardY >= 0 {
              b := b[boardY := b[boardY][boardX := Filled(p.color)]];
            }
          }
          x := x + 1;
        }
        PaintedNextRow(b, orig, p, y);
        y := y + 1;
      }
      PaintedAll(b, orig, p);
      board := b;
    }

    /** `clearLines()`: the rows of the board compacted by ClearRows;
        returns the number of rows removed. */
    method ClearLines() returns (cleared: nat)
      requires |board| == Height
      modifies this`board
      ensures board == Compact(old(board)) && cleared == FullCount(old(board))
      ensures Snapshot() == old(Snapshot()).(board := board)
    {
      var rows;
      rows, cleared := ClearRows(board);
      board := rows;
    }

    /** The first half of `lockPiece()`: paint the piece, clear the full
        rows and, when rows were cleared, update lines, score, level and
        speed. */
    method SettlePiece() returns (count: nat)
      requires Playable(Snapshot())
      modifies this
      ensures var painted := Overlay(old(board), old(currentPiece));
        board == Compact(painted) && count == FullCount(painted)
      ensures lines == old(lines) + count
      ensures score == if count > 0 then old(score) + LineScore(count, old(level)) else old(score)
      ensures level == if count > 0 then LevelFor(lines) else old(level)
      ensures dropInterval == if count > 0 then IntervalFor(level) else old(dropInterval)
      ensures currentPiece == old(currentPiece) && nextPiece == old(nextPiece)
      ensures isGameOver == old(isGameOver) && dropTime == old(dropTime)
    {
      ghost var painted := Overlay(board, currentPiece);
      PlacePiece();
      count := ClearLines();
      if count > 0 {
        lines := lines + count;
        score := score + LineScore(count, level);
        level := lines / 10 + 1;
        dropInterval := if 1000 - (level - 1) * 50 < 50 then 50 else 1000 - (level - 1) * 50;
      }
    }

    /** `lockPiece()` */
    method LockPiece() returns (events: seq<Event>)
      requires Playable(Snapshot())
      modifies this, rng
      ensures rng.drawn == old(rng.drawn) + 1
      ensures var st := Lock(old(Snapshot()), old(NextKind()));
        Snapshot() == st.state && events == st.events
    {
      ghost var s := Snapshot();
      ghost var k := NextKind();
      ghost var st := Lock(s, k);
      LockFields(s, k);
      var count := SettlePiece();
      events := [];
      if count > 0 {
        events := [LinesCleared(count)];
      }
      currentPiece := nextPiece;
      nextPiece := GeneratePiece(rng);
      assert currentPiece == st.state.current && nextPiece == st.state.next;
      var fits := IsValidMove(currentPiece.shape, currentPiece.x, currentPiece.y);
      assert fits == Fits(st.state.board, st.state.current.shape, st.state.current.x, st.state.current.y);
      if !fits {
        isGameOver := true;
        events := events + [GameOver];
      }
      assert Snapshot() == st.state;
      events := events + [Updated(Snapshot())];
    }

    /** `getBoardWithCurrentPiece()`: a copy of the board with the active
        piece painted on the cells that lie on the board. */
    method GetBoardWithCurrentPiece() returns (copy: Grid)
      requires WellShaped(board)
      ensures copy == Overlay(board, currentPiece)
    {
      copy := board;
      var p := currentPiece;
      var y := 0;
      while y < |p.shape|
        invariant 0 <= y <= |p.shape|
        invariant Painted(copy, board, p, y, 0)
      {
        var x := 0;
        while x < |p.shape[y]|
          invariant 0 <= x <= |p.shape[y]|
          invariant Painted(copy, board, p, y, x)
        {
          if p.shape[y][x] {
            var boardY := p.y + y;
            var boardX := p.x + x;
            if boardY >= 0 && boardY < Height && boardX >= 0 && boardX < Width {
              copy := copy[boardY := copy[boardY][boardX := Filled(p.color)]];
            }
          }
          x := x + 1;
        }
        PaintedNextRow(copy, board, p, y);
        y := y + 1;
      }
      PaintedAll(copy, board, p);
    }

    /** `getGameState()`, the value handed to onUpdate. */
    method GetGameState() returns (v: View)
      requires WellShaped(board)
      ensures v == ViewOf(Snapshot())
    {
      var b := GetBoardWithCurrentPiece();
      v := View(b, nextPiece, score, level, lines, isGameOver);
    }

    /** `update(deltaTime)`, with the elapsed time in whole milliseconds. */
    method Update(deltaTime: int) returns (events: seq<Event>)
      requires Playable(Snapshot())
      modifies this, rng
      ensures var st := Tick(old(Snapshot()), deltaTime, old(NextKind()));
        Snapshot() == st.state && events == st.events
    {
      ghost var s := Snapshot();
      ghost var k := NextKind();
      if isGameOver {
        return [];
      }
      TickOutcome(s, deltaTime, k);
      ghost var timed := s.(dropTime := s.dropTime + deltaTime);
      dropTime := dropTime + deltaTime;
      assert Snapshot() == timed;
      events := [];
      if dropTime >= dropInterval {
        var moved;
        moved, events := MovePiece(Down);
        ghost var st := Move(timed, Down, k);
        assert Snapshot() == st.state && events == st.events;
        dropTime := 0;
        assert Snapshot() == st.state.(dropTime := 0);
      }
    }

    /** `addGarbageLines(count)`: count times, drop the bottom row and put a
        garbage row with a random hole on top; then one update. */
    method AddGarbageLines(count: int) returns (events: seq<Event>)
      requires WellShaped(board)
      modifies this, rng
      ensures var n := if count < 0 then 0 else count;
        var st := Garbage(old(Snapshot()), Draws(rng.outcomes, old(rng.drawn), n, Width));
        Snapshot() == st.state && events == st.events && rng.drawn == old(rng.drawn) + n
    {
      ghost var s := Snapshot();
      ghost var d0 := rng.drawn;
      var rows := PushGarbageRows(board, count);
      ghost var holes := Draws(rng.outcomes, d0, if count < 0 then 0 else count, Width);
      AddGarbageKeepsInvariant(board, holes);
      board := rows;
      assert Snapshot() == Garbage(s, holes).state;
      events := [Updated(Snapshot())];
    }

    /** The loop of `addGarbageLines` on the rows of the board. */
    method PushGarbageRows(g: Grid, count: int) returns (rows: Grid)
      requires |g| > 0
      modifies rng
      ensures var n := if count < 0 then 0 else count;
        rows == AddGarbage(g, Draws(rng.outcomes, old(rng.drawn), n, Width)) && rng.drawn == old(rng.drawn) + n
    {
      rows := g;
      ghost var d0 := rng.drawn;
      var i := 0;
      while i < count
        invariant 0 <= i && (count >= 0 ==> i <= count) && (count < 0 ==> i == 0)
        invariant rng.drawn == d0 + i
        invariant rows == AddGarbage(g, Draws(rng.outcomes, d0, i, Width))
      {
        var hole := rng.Below(Width);
        GarbageFromStream(g, rng.outcomes, d0, i);
        var garbageLine := seq(Width, _ => Filled(GarbageColor));
        garbageLine := garbageLine[hole := Empty];
        assert garbageLine == GarbageRow(hole);
        rows := [garbageLine] + rows[..|rows| - 1];
        i := i + 1;
      }
    }
  }

  /** `new TetrisEngine(onUpdate, …)` as its caller sees it: the engine the
      constructor builds, and the one update its `init()` hands to
      `onUpdate`, carrying the new state. */
  method NewEngine(rng: Rng) returns (e: TetrisEngine, events: seq<Event>)
    modifies rng
    ensures fresh(e) && e.rng == rng
    ensures e.Snapshot() == Init(KindAt(rng.outcomes, old(rng.drawn)), KindAt(rng.outcomes, old(rng.drawn) + 1))
    ensures rng.drawn == old(rng.drawn) + 2
    ensures events == [Updated(e.Snapshot())]
  {
    e := new TetrisEngine(rng);
    events := [Updated(e.Snapshot())];
  }
}
