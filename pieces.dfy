// The seven piece shapes of TetrisEngine.js (TETRIS_PIECES), spawning
// (generatePiece) and the clockwise quarter turn (rotatePiece).

module Pieces {
  import opened Board

  datatype Kind = I | O | T | S | Z | J | L

  /** `Object.keys(TETRIS_PIECES)`, the order a random index picks from. */
  const Kinds: seq<Kind> := [I, O, T, S, Z, J, L]

  /** A 0/1 matrix; `true` stands for 1. */
  type Shape = seq<seq<bool>>

  /** The position of a kind in `Kinds`. */
  function Index(k: Kind): (i: nat)
    ensures i < |Kinds| && Kinds[i] == k
  {
    match k
    case I => 0
    case O => 1
    case T => 2
    case S => 3
    case Z => 4
    case J => 5
    case L => 6
  }

  /** The shapes of TETRIS_PIECES, in the order of `Kinds`. */
  const Shapes: seq<Shape> :=
    [ [[false, false, false, false],
       [true,  true,  true,  true ],
       [false, false, false, false],
       [false, false, false, false]],
      [[false, false, false, false],
       [false, true,  true,  false],
       [false, true,  true,  false],
       [false, false, false, false]],
      [[false, false, false],
       [true,  true,  true ],
       [false, true,  false]],
      [[false, false, false],
       [false, true,  true ],
       [true,  true,  false]],
      [[false, false, false],
       [true,  true,  false],
       [false, true,  true ]],
      [[true,  false, false],
       [true,  true,  true ],
       [false, false, false]],
      [[false, false, true ],
       [true,  true,  true ],
       [false, false, false]] ]

  /** The colours of TETRIS_PIECES, in the order of `Kinds`. */
  const Colors: seq<Color> := [Cyan, Yellow, Purple, Green, Red, Blue, Orange]

  function ShapeOf(k: Kind): Shape
  {
    Shapes[Index(k)]
  }

  function ColorOf(k: Kind): Color
  {
    Colors[Index(k)]
  }

  /** The active piece: its shape (possibly rotated), its colour, its anchor
      in board coordinates and its rotation in degrees. */
  datatype Piece = Piece(kind: Kind, shape: Shape, color: Color, x: int, y: int, rotation: int)

  /** `generatePiece` for a given random choice: anchored at the top, centred. */
  function Spawn(k: Kind): (p: Piece)
    ensures p.y == 0 && p.rotation == 0 && p.shape == ShapeOf(k)
    ensures p.x == Width / 2 - |ShapeOf(k)[0]| / 2
  {
    Piece(k, ShapeOf(k), ColorOf(k), Width / 2 - |ShapeOf(k)[0]| / 2, 0, 0)
  }

  /** A non-empty rectangular matrix. */
  predicate IsMatrix(s: Shape)
  {
    |s| > 0 && |s[0]| > 0 && forall r :: 0 <= r < |s| ==> |s[r]| == |s[0]|
  }

  predicate IsSquare(s: Shape)
  {
    IsMatrix(s) && |s[0]| == |s|
  }

  predicate HasCell(s: Shape)
  {
    exists r, c :: 0 <= r < |s| && 0 <= c < |s[r]| && s[r][c]
  }

  /** What a piece shape looks like: square, at most 4 x 4, with at least
      one filled cell. */
  predicate GoodShape(s: Shape)
  {
    IsSquare(s) && |s| <= 4 && HasCell(s)
  }

  lemma SpawnShapesGood(k: Kind)
    ensures GoodShape(ShapeOf(k)) && (|ShapeOf(k)| == 3 || |ShapeOf(k)| == 4)
  {
    var s := ShapeOf(k);
    // every shape has its centre-left cell (row 1, column 1) filled
    assert 0 <= 1 < |s| && 0 <= 1 < |s[1]| && s[1][1];
  }

  function Reverse<X>(s: seq<X>): (r: seq<X>)
    ensures |r| == |s|
    ensures forall i :: 0 <= i < |s| ==> r[i] == s[|s| - 1 - i]
  {
    if s == [] then [] else Reverse(s[1..]) + [s[0]]
  }

  /** `piece.shape.map(row => row[index])` */
  function Column(s: Shape, index: nat): seq<bool>
    requires IsMatrix(s) && index < |s[0]|
  {
    seq(|s|, r requires 0 <= r < |s| => s[r][index])
  }

  /** `rotatePiece`: the new row i is column i of the old shape, reversed. */
  function Rotate(s: Shape): Shape
    requires IsMatrix(s)
  {
    seq(|s[0]|, i requires 0 <= i < |s[0]| => Reverse(Column(s, i)))
  }

  /** Rotation is a clockwise quarter turn: the cell at (row i, column j)
      of the result is the old cell at (row n-1-j, column i). */
  lemma RotateAt(s: Shape)
    requires IsMatrix(s)
    ensures IsMatrix(Rotate(s)) && |Rotate(s)| == |s[0]| && |Rotate(s)[0]| == |s|
    ensures forall i, j :: 0 <= i < |s[0]| && 0 <= j < |s| ==> Rotate(s)[i][j] == s[|s| - 1 - j][i]
  {
  }

  /** Shape b is shape a turned upside down (rotated by 180 degrees). */
  predicate UpsideDown(a: Shape, b: Shape)
  {
    IsMatrix(a) && IsMatrix(b) && |b| == |a| && |b[0]| == |a[0]|
    && forall i, j :: 0 <= i < |a| && 0 <= j < |a[0]| ==> b[i][j] == a[|a| - 1 - i][|a[0]| - 1 - j]
  }

  /** Two quarter turns turn the shape upside down. */
  lemma HalfTurn(s: Shape)
    requires IsMatrix(s)
    ensures IsMatrix(Rotate(s)) && UpsideDown(s, Rotate(Rotate(s)))
  {
    RotateAt(s);
    RotateAt(Rotate(s));
  }

  /** Turning upside down twice gives back the shape. */
  lemma UpsideDownTwice(s: Shape, h: Shape, f: Shape)
    requires UpsideDown(s, h) && UpsideDown(h, f)
    ensures f == s
  {
    forall i | 0 <= i < |s| ensures f[i] == s[i] {
      forall j | 0 <= j < |s[i]| ensures f[i][j] == s[i][j] {
        assert f[i][j] == h[|s| - 1 - i][|s[0]| - 1 - j];
      }
    }
  }

  /** Four applications of rotatePiece give back the original shape. */
  lemma RotateFourTimes(s: Shape)
    requires IsMatrix(s)
    ensures IsMatrix(Rotate(Rotate(Rotate(s))))
    ensures Rotate(Rotate(Rotate(Rotate(s)))) == s
  {
    HalfTurn(s);
    var h := Rotate(Rotate(s));
    HalfTurn(h);
    UpsideDownTwice(s, h, Rotate(Rotate(h)));
  }

  /** Rotation keeps a shape a good piece shape. */
  lemma RotateKeepsGood(s: Shape)
    requires GoodShape(s)
    ensures GoodShape(Rotate(s)) && |Rotate(s)| == |s|
  {
    RotateAt(s);
    var r, c :| 0 <= r < |s| && 0 <= c < |s[r]| && s[r][c];
    assert Rotate(s)[c][|s| - 1 - r] == s[r][c];
  }
}
