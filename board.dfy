// The playing field of one Tetris engine: a fixed 10 x 20 grid of cells,
// the row compaction done after a lock and the garbage rows an attack
// pushes in from the top.

module Board {

  /** The colour strings cells are painted with: the seven piece colours
      and the grey of attack rows (see Hex for the strings themselves). */
  datatype Color = Cyan | Yellow | Purple | Green | Red | Blue | Orange | Grey

  function Hex(c: Color): string
  {
    match c
    case Cyan => "#00f0f0"
    case Yellow => "#f0f000"
    case Purple => "#a000f0"
    case Green => "#00f000"
    case Red => "#f00000"
    case Blue => "#0000f0"
    case Orange => "#f0a000"
    case Grey => "#666666"
  }

  /** A cell is `0` (empty) or a colour string in the source. */
  datatype Cell = Empty | Filled(color: Color)

  type Row = seq<Cell>
  type Grid = seq<Row>

  const Width: nat := 10
  const Height: nat := 20
  /** Colour of the cells of an attack row. */
  const GarbageColor: Color := Grey

  /** Every board the engine holds has exactly Height rows of Width cells. */
  predicate WellShaped(g: Grid)
  {
    |g| == Height && forall r :: 0 <= r < |g| ==> |g[r]| == Width
  }

  /** `row.every(cell => cell !== 0)` */
  predicate Full(row: Row)
  {
    forall c :: 0 <= c < |row| ==> row[c] != Empty
  }

  predicate NoFullRow(g: Grid)
  {
    forall r :: 0 <= r < |g| ==> !Full(g[r])
  }

  function EmptyRow(): (row: Row)
    ensures |row| == Width && !Full(row)
  {
    var row := seq(Width, _ => Empty);
    assert row[0] == Empty;
    row
  }

  function EmptyBoard(): (g: Grid)
    ensures WellShaped(g) && NoFullRow(g)
    ensures forall r, c :: 0 <= r < Height && 0 <= c < Width ==> g[r][c] == Empty
  {
    seq(Height, _ => EmptyRow())
  }

  function Empties(n: nat): (g: Grid)
  {
    seq(n, _ => EmptyRow())
  }

  /** The number of full rows of a grid. */
  function FullCount(g: Grid): nat
  {
    if g == [] then 0 else (if Full(g[0]) then 1 else 0) + FullCount(g[1..])
  }

  /** The rows that are not full, in their original order. */
  function Survivors(g: Grid): Grid
  {
    if g == [] then [] else (if Full(g[0]) then [] else [g[0]]) + Survivors(g[1..])
  }

  /** What clearing the full rows leaves: as many empty rows as were
      removed, on top of the surviving rows. */
  function Compact(g: Grid): Grid
  {
    Empties(FullCount(g)) + Survivors(g)
  }

  lemma {:induction false} SurvivorsFacts(g: Grid)
    ensures |Survivors(g)| + FullCount(g) == |g|
    ensures NoFullRow(Survivors(g))
    ensures forall r :: 0 <= r < |Survivors(g)| ==> Survivors(g)[r] in g
  {
    if g != [] {
      SurvivorsFacts(g[1..]);
    }
  }

  /** Compaction keeps the shape of the board and leaves no full row. */
  lemma CompactFacts(g: Grid)
    requires WellShaped(g)
    ensures WellShaped(Compact(g)) && NoFullRow(Compact(g))
    ensures Compact(g)[FullCount(g)..] == Survivors(g)
    ensures forall r :: 0 <= r < FullCount(g) ==> Compact(g)[r] == EmptyRow()
  {
    SurvivorsFacts(g);
    var c := Compact(g);
    var k := FullCount(g);
    forall r | 0 <= r < |c|
      ensures |c[r]| == Width && !Full(c[r])
    {
      if r >= k {
        assert c[r] == Survivors(g)[r - k];
      }
    }
    assert c[k..] == Survivors(g);
  }

  /** A grid without full rows has no survivors removed and no row added. */
  lemma {:induction false} SurvivorsOfNoFull(g: Grid)
    requires NoFullRow(g)
    ensures Survivors(g) == g && FullCount(g) == 0
  {
    if g != [] {
      assert NoFullRow(g[1..]) by {
        forall r | 0 <= r < |g[1..]| ensures !Full(g[1..][r]) {
          assert g[1..][r] == g[r + 1];
        }
      }
      SurvivorsOfNoFull(g[1..]);
    }
  }

  /** Clearing twice clears nothing the second time. */
  lemma CompactIdempotent(g: Grid)
    requires WellShaped(g)
    ensures Compact(Compact(g)) == Compact(g)
  {
    CompactFacts(g);
    SurvivorsOfNoFull(Compact(g));
  }

  /** Only the full rows are discarded: a grid with k full rows loses
      exactly k rows from its survivors. */
  lemma {:induction false} SurvivorsAppend(a: Grid, b: Grid)
    ensures Survivors(a + b) == Survivors(a) + Survivors(b)
    ensures FullCount(a + b) == FullCount(a) + FullCount(b)
  {
    if a == [] {
      assert a + b == b;
    } else {
      var head := if Full(a[0]) then [] else [a[0]];
      var tail := a[1..];
      assert (a + b)[0] == a[0];
      assert (a + b)[1..] == tail + b;
      SurvivorsAppend(tail, b);
      assert Survivors(a + b) == head + Survivors(tail + b);
      assert Survivors(a) == head + Survivors(tail);
      assert head + (Survivors(tail) + Survivors(b)) == (head + Survivors(tail)) + Survivors(b);
    }
  }

  /** If every full row of g lies in the window [lo, hi), there are at most
      hi - lo of them. */
  lemma {:induction false} FullCountInWindow(g: Grid, lo: nat, hi: nat)
    requires lo <= hi
    requires forall r :: 0 <= r < |g| && Full(g[r]) ==> lo <= r < hi
    ensures FullCount(g) <= hi - lo
  {
    if g != [] {
      var n := |g|;
      var front := g[..n - 1];
      assert g == front + [g[n - 1]];
      SurvivorsAppend(front, [g[n - 1]]);
      assert FullCount([g[n - 1]]) == if Full(g[n - 1]) then 1 else 0 by {
        assert [g[n - 1]][1..] == [];
      }
      forall r | 0 <= r < |front| && Full(front[r]) ensures lo <= r < hi {
        assert front[r] == g[r];
      }
      if n - 1 < lo || !Full(g[n - 1]) {
        // the last row is not counted
        FullCountInWindow(front, lo, hi);
      } else {
        // the last row is full, so it lies in the window
        FullCountBelow(front, lo);
      }
    }
  }

  /** A grid whose full rows all sit at index lo or later, and which has
      n rows, holds at most n - lo full rows. */
  lemma {:induction false} FullCountBelow(g: Grid, lo: nat)
    requires forall r :: 0 <= r < |g| && Full(g[r]) ==> lo <= r
    ensures FullCount(g) <= if |g| <= lo then 0 else |g| - lo
  {
    if g != [] {
      var n := |g|;
      var front := g[..n - 1];
      assert g == front + [g[n - 1]];
      SurvivorsAppend(front, [g[n - 1]]);
      assert FullCount([g[n - 1]]) == if Full(g[n - 1]) then 1 else 0 by {
        assert [g[n - 1]][1..] == [];
      }
      forall r | 0 <= r < |front| && Full(front[r]) ensures lo <= r {
        assert front[r] == g[r];
      }
      FullCountBelow(front, lo);
    }
  }

  // ---------------------------------------------------------------------
  // Clearing in place (TetrisEngine.clearLines), scanning bottom-up

  /** The board part way through the scan: as many empty rows on top as
      rows were removed, then the first p rows, not looked at yet, then the
      survivors of the rows looked at. */
  function Clearing(g: Grid, p: nat, cleared: nat): Grid
    requires p <= |g|
  {
    Empties(cleared) + g[..p] + Survivors(g[p..])
  }

  lemma ClearingStart(g: Grid)
    ensures Clearing(g, |g|, 0) == g && FullCount(g[|g|..]) == 0
  {
    assert g[..|g|] == g && g[|g|..] == [];
  }

  lemma ClearingEnd(g: Grid)
    ensures Clearing(g, 0, FullCount(g)) == Compact(g) && FullCount(g[0..]) == FullCount(g)
  {
    assert g[..0] == [] && g[0..] == g;
  }

  /** The scan keeps the number of rows, and the row it looks at next is
      row p - 1 of the original, or an added empty row once p is 0. */
  lemma ClearingRows(g: Grid, p: nat, cleared: nat, y: int)
    requires p <= |g| && cleared == FullCount(g[p..])
    requires (p > 0 ==> y == cleared + p - 1) && (p == 0 ==> 0 <= y < cleared)
    ensures |Clearing(g, p, cleared)| == |g| && 0 <= y < |g|
    ensures p > 0 ==> Clearing(g, p, cleared)[y] == g[p - 1]
    ensures p == 0 ==> Clearing(g, p, cleared)[y] == EmptyRow()
  {
    SurvivorsFacts(g[p..]);
  }

  /** Removing the full row p - 1 and adding an empty row on top. */
  lemma ClearingRemove(g: Grid, p: nat, cleared: nat)
    requires 0 < p <= |g| && cleared == FullCount(g[p..]) && Full(g[p - 1])
    ensures var b := Clearing(g, p, cleared);
      var y := cleared + p - 1;
      y < |b| && [EmptyRow()] + b[..y] + b[y + 1..] == Clearing(g, p - 1, cleared + 1)
      && cleared + 1 == FullCount(g[p - 1..])
  {
    var e := Empties(cleared);
    var above := g[..p - 1];
    var rest := Survivors(g[p..]);
    var b := Clearing(g, p, cleared);
    var y := cleared + p - 1;
    assert g[..p] == above + [g[p - 1]];
    assert b == e + above + [g[p - 1]] + rest;
    assert b[..y] == e + above;
    assert b[y + 1..] == rest;
    assert g[p - 1..][0] == g[p - 1] && g[p - 1..][1..] == g[p..];
    assert Survivors(g[p - 1..]) == rest;
    assert [EmptyRow()] + e == Empties(cleared + 1);
  }

  /** Passing over the row p - 1, which is not full. */
  lemma ClearingKeep(g: Grid, p: nat, cleared: nat)
    requires 0 < p <= |g| && cleared == FullCount(g[p..]) && !Full(g[p - 1])
    ensures Clearing(g, p, cleared) == Clearing(g, p - 1, cleared)
    ensures cleared == FullCount(g[p - 1..])
  {
    assert g[p - 1..][0] == g[p - 1] && g[p - 1..][1..] == g[p..];
    assert g[..p] == g[..p - 1] + [g[p - 1]];
  }

  // ---------------------------------------------------------------------
  // Garbage rows (TetrisEngine.addGarbageLines)

  /** `Array(Width).fill('#666666')` with `0` written at the hole. */
  function GarbageRow(hole: nat): Row
    requires hole < Width
  {
    seq(Width, c => if c == hole then Empty else Filled(GarbageColor))
  }

  /** Number of empty cells in a row. */
  function EmptyCount(row: Row): nat
  {
    if row == [] then 0 else (if row[0] == Empty then 1 else 0) + EmptyCount(row[1..])
  }

  lemma {:induction false} EmptyCountOnlyAt(row: Row, hole: nat)
    requires hole < |row| && row[hole] == Empty
    requires forall c :: 0 <= c < |row| && c != hole ==> row[c] != Empty
    ensures EmptyCount(row) == 1
  {
    if hole == 0 {
      EmptyCountNone(row[1..]);
    } else {
      EmptyCountOnlyAt(row[1..], hole - 1);
    }
  }

  lemma {:induction false} EmptyCountNone(row: Row)
    requires forall c :: 0 <= c < |row| ==> row[c] != Empty
    ensures EmptyCount(row) == 0
  {
    if row != [] {
      EmptyCountNone(row[1..]);
    }
  }

  /** A garbage row has exactly one empty cell, at its hole, so it is never full. */
  lemma GarbageRowFacts(hole: nat)
    requires hole < Width
    ensures |GarbageRow(hole)| == Width && !Full(GarbageRow(hole))
    ensures GarbageRow(hole)[hole] == Empty && EmptyCount(GarbageRow(hole)) == 1
    ensures forall c :: 0 <= c < Width && c != hole ==> GarbageRow(hole)[c] == Filled(GarbageColor)
  {
    EmptyCountOnlyAt(GarbageRow(hole), hole);
  }

  predicate HolesInRange(holes: seq<nat>)
  {
    forall i :: 0 <= i < |holes| ==> holes[i] < Width
  }

  /** One iteration of the garbage loop: drop the bottom row, insert a
      garbage row on top. */
  function PushGarbage(g: Grid, hole: nat): (r: Grid)
    requires |g| > 0 && hole < Width
    ensures |r| == |g|
  {
    [GarbageRow(hole)] + g[..|g| - 1]
  }

  /** The board after one garbage row per hole, holes used in order. */
  function AddGarbage(g: Grid, holes: seq<nat>): (r: Grid)
    requires |g| > 0 && HolesInRange(holes)
    ensures |r| == |g|
    decreases |holes|
  {
    if holes == [] then g
    else PushGarbage(AddGarbage(g, holes[..|holes| - 1]), holes[|holes| - 1])
  }

  /** After n <= |g| garbage rows, the top n rows are the garbage rows (the
      most recent on top) and the old top |g| - n rows have moved down by n. */
  lemma {:induction false} AddGarbageLayout(g: Grid, holes: seq<nat>)
    requires |g| > 0 && HolesInRange(holes) && |holes| <= |g|
    ensures forall r :: 0 <= r < |holes| ==> AddGarbage(g, holes)[r] == GarbageRow(holes[|holes| - 1 - r])
    ensures forall r :: |holes| <= r < |g| ==> AddGarbage(g, holes)[r] == g[r - |holes|]
  {
    if holes != [] {
      var n := |holes|;
      var front := holes[..n - 1];
      assert HolesInRange(front);
      AddGarbageLayout(g, front);
      var prev := AddGarbage(g, front);
      var out := AddGarbage(g, holes);
      assert out == PushGarbage(prev, holes[n - 1]);
      PushGarbageShifts(prev, holes[n - 1]);
      forall r | 0 < r < n
        ensures out[r] == GarbageRow(holes[n - 1 - r])
      {
        assert out[r] == prev[r - 1];
        assert front[n - 2 - (r - 1)] == holes[n - 1 - r];
      }
    }
  }

  /** One garbage step puts the new row on top and moves every other row down by one. */
  lemma PushGarbageShifts(g: Grid, hole: nat)
    requires |g| > 0 && hole < Width
    ensures PushGarbage(g, hole)[0] == GarbageRow(hole)
    ensures forall r :: 0 < r < |g| ==> PushGarbage(g, hole)[r] == g[r - 1]
  {
  }

  /** Garbage keeps the board well shaped and creates no full row. */
  lemma {:induction false} AddGarbageKeepsInvariant(g: Grid, holes: seq<nat>)
    requires WellShaped(g) && HolesInRange(holes)
    ensures WellShaped(AddGarbage(g, holes))
    ensures NoFullRow(g) ==> NoFullRow(AddGarbage(g, holes))
    decreases |holes|
  {
    if holes != [] {
      var n := |holes|;
      var front := holes[..n - 1];
      assert HolesInRange(front);
      AddGarbageKeepsInvariant(g, front);
      var prev := AddGarbage(g, front);
      var r := PushGarbage(prev, holes[n - 1]);
      GarbageRowFacts(holes[n - 1]);
      forall i | 0 <= i < |r| ensures |r[i]| == Width && (NoFullRow(g) ==> !Full(r[i])) {
        if i > 0 {
          assert r[i] == prev[i - 1];
        }
      }
    }
  }
}
