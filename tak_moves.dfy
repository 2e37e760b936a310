/** Move generation: `search_line` and `available_moves` (mcts/src/game.cpp:90-161). The
    generator's output is specified by left-recursive functions that follow its loops, and a
    predicate `IsLegal` characterises membership independently of the order. */
module Moves {
  import opened TakTypes
  import opened Stacks
  import opened Engine

  function Max(a: int, b: int): int
  {
    if a < b then b else a
  }

  /** The first c cells along direction k from (i, j) are on the board and none is topped by
      a wall (the `hit_wall` and edge tests of `search_line`). */
  predicate Open(b: seq<uint8>, i: int, j: int, k: int, c: nat)
    requires |b| == BoardSize && 0 <= k < 4
  {
    c == 0 ||
    (Open(b, i, j, k, c - 1) && OnBoard(i + c * DirI[k], j + c * DirJ[k]) &&
     Top(b, i + c * DirI[k], j + c * DirJ[k]) < WallOffset)
  }

  /** `max_drops[c]` of `search_line` for direction k and tower height h. */
  function MaxDrop(b: seq<uint8>, i: int, j: int, h: int, k: int, c: nat): int
    requires |b| == BoardSize && 0 <= k < 4 && c <= 3
  {
    if c == 0 then h - 1
    else if Open(b, i, j, k, c) then Max(0, h - c + 1)
    else 0
  }

  /** Cell c along direction k can take d more pieces: it is on the board and its height
      plus d stays below 8. */
  predicate Fits(b: seq<uint8>, i: int, j: int, k: int, c: int, d: int)
    requires |b| == BoardSize && 0 <= k < 4
  {
    OnBoard(i + c * DirI[k], j + c * DirJ[k]) && d + HeightAt(b, i + c * DirI[k], j + c * DirJ[k]) < MaxHeight
  }

  /** The two tests of `search_line`'s innermost loop body. The height of cell c is only
      looked up when its drop is non-zero, and inside the loop bounds such a cell is on the
      board (lemma `AcceptedOnBoard`). */
  predicate Accept(b: seq<uint8>, i: int, j: int, h: int, k: int, d0: int, d1: int, d2: int)
    requires |b| == BoardSize && OnBoard(i, j) && 0 <= k < 4
  {
    var d3 := h - d0 - d1 - d2;
    !(d0 + d1 + d2 > h || d0 + d1 + d2 + MaxDrop(b, i, j, h, k, 3) < h) &&
    d0 + HeightAt(b, i, j) < MaxHeight &&
    (d1 == 0 || Fits(b, i, j, k, 1, d1)) &&
    (d2 == 0 || Fits(b, i, j, k, 2, d2)) &&
    (d3 == 0 || Fits(b, i, j, k, 3, d3))
  }

  function LineMove(i: uint8, j: uint8, k: int, d0: uint8, d1: uint8, d2: uint8): Move
    requires 0 <= k < 4
  {
    Move(MOVE, i, j, DirI[k], DirJ[k], d0, d1, d2)
  }

  /** Moves of the d2 loop for fixed d0, d1: d2 ranges over [0, n). */
  function D2Range(b: seq<uint8>, i: uint8, j: uint8, h: int, k: int, d0: uint8, d1: uint8, n: nat): seq<Move>
    requires |b| == BoardSize && OnBoard(i, j) && 0 <= k < 4 && n <= Slots
  {
    if n == 0 then []
    else
      D2Range(b, i, j, h, k, d0, d1, n - 1) +
      (if Accept(b, i, j, h, k, d0, d1, n - 1) then [LineMove(i, j, k, d0, d1, n - 1)] else [])
  }

  /** Moves of the d1 loop for fixed d0: d1 ranges over [1, n). */
  function D1Range(b: seq<uint8>, i: uint8, j: uint8, h: int, k: int, d0: uint8, n: nat): seq<Move>
    requires |b| == BoardSize && OnBoard(i, j) && 0 <= k < 4 && 0 <= h <= MaxHeight && n <= Slots
  {
    if n <= 1 then []
    else D1Range(b, i, j, h, k, d0, n - 1) + D2Range(b, i, j, h, k, d0, n - 1, MaxDrop(b, i, j, h, k, 2) + 1)
  }

  /** Moves of the d0 loop: d0 ranges over [0, n). */
  function D0Range(b: seq<uint8>, i: uint8, j: uint8, h: int, k: int, n: nat): seq<Move>
    requires |b| == BoardSize && OnBoard(i, j) && 0 <= k < 4 && 0 <= h <= MaxHeight && n <= MaxHeight
  {
    if n == 0 then []
    else D0Range(b, i, j, h, k, n - 1) + D1Range(b, i, j, h, k, n - 1, MaxDrop(b, i, j, h, k, 1) + 1)
  }

  /** What `search_line` emits for direction k: d0 runs up to `max_drops[0]` = h - 1. */
  function DirectionMoves(b: seq<uint8>, i: uint8, j: uint8, h: int, k: int): seq<Move>
    requires |b| == BoardSize && OnBoard(i, j) && 0 <= k < 4 && 0 <= h <= MaxHeight
  {
    D0Range(b, i, j, h, k, h)
  }

  /** What `search_line` emits for the first n directions. */
  function LineMoves(b: seq<uint8>, i: uint8, j: uint8, h: int, n: nat): seq<Move>
    requires |b| == BoardSize && OnBoard(i, j) && 0 <= h <= MaxHeight && n <= 4
  {
    if n == 0 then [] else LineMoves(b, i, j, h, n - 1) + DirectionMoves(b, i, j, h, n - 1)
  }

  /** The moves `available_moves` finds at one cell: FLAT and WALL on an empty cell, then the
      stack moves of a cell topped by the mover's flat or wall. */
  function CellMoves(g: Game, i: uint8, j: uint8): seq<Move>
    requires OnBoard(i, j)
  {
    var top := Top(g.board, i, j);
    (if top == 0 then [Move(FLAT, i, j, 0, 0, 0, 0, 0), Move(WALL, i, j, 0, 0, 0, 0, 0)] else []) +
    (if top == g.turn || top == g.turn + WallOffset then LineMoves(g.board, i, j, HeightAt(g.board, i, j), 4) else [])
  }

  /** The moves of cells (i, 0) .. (i, n - 1). */
  function RowMoves(g: Game, i: uint8, n: nat): seq<Move>
    requires i < 4 && n <= 4
  {
    if n == 0 then [] else RowMoves(g, i, n - 1) + CellMoves(g, i, n - 1)
  }

  /** The moves of rows 0 .. n - 1. */
  function RowsMoves(g: Game, n: nat): seq<Move>
    requires n <= 4
  {
    if n == 0 then [] else RowsMoves(g, n - 1) + RowMoves(g, n - 1, 4)
  }

  /** `available_moves`. */
  function LegalMoves(g: Game): seq<Move>
  {
    RowsMoves(g, 4)
  }

  /** `search_line`: appends the stack moves of the tower at (i, j) of height h to `moves`.
      The source's test that the direction is orthogonal never fires for the four fixed
      directions and is left out. */
  method SearchLine(g: Game, i: uint8, j: uint8, h: int, moves: seq<Move>) returns (out: seq<Move>)
    requires OnBoard(i, j) && 0 <= h <= MaxHeight
    ensures out == moves + LineMoves(g.board, i, j, h, 4)
  {
    var b := g.board;
    out := moves;
    for k := 0 to 4
      invariant out == moves + LineMoves(b, i, j, h, k)
    {
      var maxDrops := MaxDrops(b, i, j, h, k);
      out := DropsScan(b, i, j, h, k, maxDrops, out);
      Associative(moves, LineMoves(b, i, j, h, k), DirectionMoves(b, i, j, h, k));
    }
  }

  /** The three drop loops of `search_line` for direction k. */
  method DropsScan(b: seq<uint8>, i: uint8, j: uint8, h: int, k: int, maxDrops: seq<int>, moves: seq<Move>)
    returns (out: seq<Move>)
    requires |b| == BoardSize && OnBoard(i, j) && 0 <= k < 4 && 0 <= h <= MaxHeight
    requires |maxDrops| == 4 && forall c :: 0 <= c < 4 ==> maxDrops[c] == MaxDrop(b, i, j, h, k, c)
    ensures out == moves + DirectionMoves(b, i, j, h, k)
  {
    out := moves;
    var d0 := 0;
    while d0 <= maxDrops[0]
      invariant 0 <= d0 <= h
      invariant out == moves + D0Range(b, i, j, h, k, d0)
      decreases h - d0
    {
      out := D1Scan(b, i, j, h, k, maxDrops, d0, out);
      Associative(moves, D0Range(b, i, j, h, k, d0), D1Range(b, i, j, h, k, d0, maxDrops[1] + 1));
      d0 := d0 + 1;
    }
  }

  /** The d1 loop of `search_line` for a fixed d0. */
  method D1Scan(b: seq<uint8>, i: uint8, j: uint8, h: int, k: int, maxDrops: seq<int>, d0: uint8, moves: seq<Move>)
    returns (out: seq<Move>)
    requires |b| == BoardSize && OnBoard(i, j) && 0 <= k < 4 && 0 <= h <= MaxHeight
    requires |maxDrops| == 4 && forall c :: 0 <= c < 4 ==> maxDrops[c] == MaxDrop(b, i, j, h, k, c)
    requires d0 < h
    ensures 1 <= maxDrops[1] + 1 <= Slots
    ensures out == moves + D1Range(b, i, j, h, k, d0, maxDrops[1] + 1)
  {
    out := moves;
    var d1 := 1;
    while d1 <= maxDrops[1]
      invariant 1 <= d1 <= maxDrops[1] + 1
      invariant out == moves + D1Range(b, i, j, h, k, d0, d1)
      decreases maxDrops[1] - d1
    {
      out := D2Scan(b, i, j, h, k, maxDrops, d0, d1, out);
      Associative(moves, D1Range(b, i, j, h, k, d0, d1), D2Range(b, i, j, h, k, d0, d1, maxDrops[2] + 1));
      d1 := d1 + 1;
    }
  }

  /** The d2 loop of `search_line` for fixed d0 and d1. */
  method D2Scan(b: seq<uint8>, i: uint8, j: uint8, h: int, k: int, maxDrops: seq<int>, d0: uint8, d1: uint8,
                moves: seq<Move>) returns (out: seq<Move>)
    requires |b| == BoardSize && OnBoard(i, j) && 0 <= k < 4 && 0 <= h <= MaxHeight
    requires |maxDrops| == 4 && forall c :: 0 <= c < 4 ==> maxDrops[c] == MaxDrop(b, i, j, h, k, c)
    requires d0 < h && 1 <= d1 <= maxDrops[1]
    ensures 1 <= maxDrops[2] + 1 <= Slots
    ensures out == moves + D2Range(b, i, j, h, k, d0, d1, maxDrops[2] + 1)
  {
    out := moves;
    var d2 := 0;
    while d2 <= maxDrops[2]
      invariant 0 <= d2 <= maxDrops[2] + 1
      invariant out == moves + D2Range(b, i, j, h, k, d0, d1, d2)
      decreases maxDrops[2] - d2
    {
      out := LineCandidate(b, i, j, h, k, maxDrops, d0, d1, d2, out);
      Associative(moves, D2Range(b, i, j, h, k, d0, d1, d2),
                  if Accept(b, i, j, h, k, d0, d1, d2) then [LineMove(i, j, k, d0, d1, d2)] else []);
      d2 := d2 + 1;
    }
  }

  /** The body of `search_line`'s innermost loop: test the drops and append the move. */
  method LineCandidate(b: seq<uint8>, i: uint8, j: uint8, h: int, k: int, maxDrops: seq<int>,
                       d0: uint8, d1: uint8, d2: uint8, moves: seq<Move>) returns (out: seq<Move>)
    requires |b| == BoardSize && OnBoard(i, j) && 0 <= k < 4 && 0 <= h <= MaxHeight
    requires |maxDrops| == 4 && forall c :: 0 <= c < 4 ==> maxDrops[c] == MaxDrop(b, i, j, h, k, c)
    requires d0 < h && 1 <= d1 <= maxDrops[1] && d2 <= maxDrops[2]
    ensures out == moves + (if Accept(b, i, j, h, k, d0, d1, d2) then [LineMove(i, j, k, d0, d1, d2)] else [])
  {
    out := moves;
    var di, dj := DirI[k], DirJ[k];
    if d0 + d1 + d2 > h || d0 + d1 + d2 + maxDrops[3] < h {
      return;
    }
    var d3 := h - d0 - d1 - d2;
    assert Open(b, i, j, k, 1);
    assert OnBoard(i + di, j + dj);
    assert d2 != 0 ==> OnBoard(i + 2 * di, j + 2 * dj);
    assert d3 != 0 ==> OnBoard(i + 3 * di, j + 3 * dj);
    assert (d1 == 0 || d1 + HeightAt(b, i + di, j + dj) < MaxHeight) == (d1 == 0 || Fits(b, i, j, k, 1, d1));
    assert (d2 == 0 || d2 + HeightAt(b, i + 2 * di, j + 2 * dj) < MaxHeight) == (d2 == 0 || Fits(b, i, j, k, 2, d2));
    assert (d3 == 0 || d3 + HeightAt(b, i + 3 * di, j + 3 * dj) < MaxHeight) == (d3 == 0 || Fits(b, i, j, k, 3, d3));
    if d0 + HeightAt(b, i, j) < MaxHeight &&
       (d1 == 0 || d1 + HeightAt(b, i + di, j + dj) < MaxHeight) &&
       (d2 == 0 || d2 + HeightAt(b, i + 2 * di, j + 2 * dj) < MaxHeight) &&
       (d3 == 0 || d3 + HeightAt(b, i + 3 * di, j + 3 * dj) < MaxHeight)
    {
      // the source's assert: the first cell of the line is not a wall
      assert Top(b, i + di, j + dj) <= WallOffset;
      out := out + [Move(MOVE, i, j, di, dj, d0, d1, d2)];
    }
  }

  /** The `max_drops` loop of `search_line` for direction k: stop at the edge, and once a
      wall has been seen every later cell gets 0. */
  method MaxDrops(b: seq<uint8>, i: uint8, j: uint8, h: int, k: int) returns (maxDrops: seq<int>)
    requires |b| == BoardSize && OnBoard(i, j) && 0 <= k < 4 && 0 <= h <= MaxHeight
    ensures |maxDrops| == 4 && forall c :: 0 <= c < 4 ==> maxDrops[c] == MaxDrop(b, i, j, h, k, c)
  {
    var di, dj := DirI[k], DirJ[k];
    maxDrops := [h - 1, 0, 0, 0];
    var hitWall := false;
    var c := 0;
    while c < 3
      invariant 0 <= c <= 3 && |maxDrops| == 4 && maxDrops[0] == h - 1
      invariant forall x :: 1 <= x <= c ==> maxDrops[x] == MaxDrop(b, i, j, h, k, x)
      invariant forall x :: c < x < 4 ==> maxDrops[x] == 0
      invariant hitWall <==> !Open(b, i, j, k, c)
    {
      if i + (c + 1) * di < 0 || i + (c + 1) * di >= 4 || j + (c + 1) * dj < 0 || j + (c + 1) * dj >= 4 {
        ClosedBeyond(b, i, j, k, c + 1);
        break;
      }
      var curr := Top(b, i + (c + 1) * di, j + (c + 1) * dj);
      if curr >= WallOffset {
        hitWall := true;
      }
      maxDrops := maxDrops[c + 1 := if hitWall then 0 else Max(0, h - c)];
      c := c + 1;
    }
  }

  /** Once cell c is closed, so is every later cell. */
  lemma {:induction false} ClosedBeyond(b: seq<uint8>, i: int, j: int, k: int, c: nat)
    requires |b| == BoardSize && 0 <= k < 4 && !Open(b, i, j, k, c)
    ensures forall x: nat :: c <= x ==> !Open(b, i, j, k, x)
  {
    forall x: nat | c <= x
      ensures !Open(b, i, j, k, x)
    {
      ClosedFrom(b, i, j, k, c, x);
    }
  }

  lemma {:induction false} ClosedFrom(b: seq<uint8>, i: int, j: int, k: int, c: nat, x: nat)
    requires |b| == BoardSize && 0 <= k < 4 && !Open(b, i, j, k, c) && c <= x
    ensures !Open(b, i, j, k, x)
    decreases x - c
  {
    if c < x {
      ClosedFrom(b, i, j, k, c, x - 1);
    }
  }

  /** `available_moves`: scan the cells in row-major order. */
  method AvailableMoves(g: Game) returns (moves: seq<Move>)
    ensures moves == LegalMoves(g)
  {
    moves := [];
    for i: uint8 := 0 to 4
      invariant moves == RowsMoves(g, i)
    {
      moves := ScanCells(g, i, moves);
    }
  }

  /** The inner loop of `available_moves`: the cells of row i in order. */
  method ScanCells(g: Game, i: uint8, moves: seq<Move>) returns (out: seq<Move>)
    requires i < 4
    ensures out == moves + RowMoves(g, i, 4)
  {
    out := moves;
    for j: uint8 := 0 to 4
      invariant out == moves + RowMoves(g, i, j)
    {
      out := ScanCell(g, i, j, out);
      Associative(moves, RowMoves(g, i, j), CellMoves(g, i, j));
    }
  }

  /** The body of `available_moves`' loop for cell (i, j). */
  method ScanCell(g: Game, i: uint8, j: uint8, moves: seq<Move>) returns (out: seq<Move>)
    requires OnBoard(i, j)
    ensures out == moves + CellMoves(g, i, j)
  {
    out := moves;
    var top := g.board[Base(i, j)];
    ghost var placements: seq<Move> := [];
    if top == 0 {
      out := out + [Move(FLAT, i, j, 0, 0, 0, 0, 0)];
      out := out + [Move(WALL, i, j, 0, 0, 0, 0, 0)];
      placements := [Move(FLAT, i, j, 0, 0, 0, 0, 0), Move(WALL, i, j, 0, 0, 0, 0, 0)];
    }
    assert out == moves + placements;
    ghost var stackMoves: seq<Move> := [];
    if top == g.turn || top == g.turn + WallOffset {
      var height := GetTowerHeight(g.board, i, j);
      out := SearchLine(g, i, j, height, out);
      stackMoves := LineMoves(g.board, i, j, height, 4);
    }
    Associative(moves, placements, stackMoves);
    assert CellMoves(g, i, j) == placements + stackMoves;
  }

  lemma Associative<T>(a: seq<T>, b: seq<T>, c: seq<T>)
    ensures a + b + c == a + (b + c)
  {
  }
}
