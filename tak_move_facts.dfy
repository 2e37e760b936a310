/** What `available_moves` generates, independently of the order it generates it in, and
    the guarantees the rest of the engine relies on (mcts/src/game.cpp:90-161). */
module MoveFacts {
  import opened TakTypes
  import opened Stacks
  import opened Engine
  import opened Moves

  /** Index of (di, dj) among the four directions `search_line` tries, or 4 for any other. */
  function DirIndex(di: int, dj: int): (k: nat)
    ensures k <= 4
    ensures k < 4 ==> DirI[k] == di && DirJ[k] == dj
    ensures k == 4 <==> !IsDirection(di, dj)
  {
    if di == 1 && dj == 0 then 0
    else if di == -1 && dj == 0 then 1
    else if di == 0 && dj == 1 then 2
    else if di == 0 && dj == -1 then 3
    else 4
  }

  /** A stack move from (i, j) of height h in direction k that passes `search_line`'s loop
      bounds (0 <= d0 <= h - 1, 1 <= d1 <= max_drops[1], 0 <= d2 <= max_drops[2]) and tests. */
  predicate InDirection(b: seq<uint8>, i: int, j: int, h: int, k: int, m: Move)
    requires |b| == BoardSize && OnBoard(i, j) && 0 <= k < 4
  {
    m.kind == MOVE && m.i == i && m.j == j && m.di == DirI[k] && m.dj == DirJ[k] &&
    m.drop0 < h && 1 <= m.drop1 <= MaxDrop(b, i, j, h, k, 1) && m.drop2 <= MaxDrop(b, i, j, h, k, 2) &&
    Accept(b, i, j, h, k, m.drop0, m.drop1, m.drop2)
  }

  /** The moves of `available_moves`, as a condition on one move: a placement (with zero
      direction and drops) on an empty cell, or a stack move from a cell topped by the
      mover's flat or wall. */
  predicate IsLegal(g: Game, m: Move)
  {
    OnBoard(m.i, m.j) &&
    var top := Top(g.board, m.i, m.j);
    if m.kind == MOVE then
      (top == g.turn || top == g.turn + WallOffset) &&
      DirIndex(m.di, m.dj) < 4 &&
      InDirection(g.board, m.i, m.j, HeightAt(g.board, m.i, m.j), DirIndex(m.di, m.dj), m)
    else
      top == 0 && m.di == 0 && m.dj == 0 && m.drop0 == 0 && m.drop1 == 0 && m.drop2 == 0
  }

  lemma {:induction false} D2RangeMember(b: seq<uint8>, i: uint8, j: uint8, h: int, k: int, d0: uint8, d1: uint8, n: nat, m: Move)
    requires |b| == BoardSize && OnBoard(i, j) && 0 <= k < 4 && n <= Slots
    ensures m in D2Range(b, i, j, h, k, d0, d1, n) <==> InD2(b, i, j, h, k, d0, d1, n, m)
  {
    if n > 0 {
      D2RangeMember(b, i, j, h, k, d0, d1, n - 1, m);
      var accepted := Accept(b, i, j, h, k, d0, d1, n - 1);
      var lm := LineMove(i, j, k, d0, d1, n - 1);
      var last := if accepted then [lm] else [];
      assert D2Range(b, i, j, h, k, d0, d1, n) == D2Range(b, i, j, h, k, d0, d1, n - 1) + last;
      if m.drop2 as int < n - 1 {
        assert m !in last;
        assert InD2(b, i, j, h, k, d0, d1, n, m) == InD2(b, i, j, h, k, d0, d1, n - 1, m);
      } else if m.drop2 as int == n - 1 {
        assert !InD2(b, i, j, h, k, d0, d1, n - 1, m);
        LineMoveIs(m, i, j, k, d0, d1, (n - 1) as uint8);
        assert InD2(b, i, j, h, k, d0, d1, n, m) <==> m == lm && accepted;
      } else {
        assert m !in last && !InD2(b, i, j, h, k, d0, d1, n, m);
      }
    }
  }

  lemma LineMoveIs(m: Move, i: uint8, j: uint8, k: int, d0: uint8, d1: uint8, d2: uint8)
    requires 0 <= k < 4
    ensures m == LineMove(i, j, k, d0, d1, d2) <==>
      m.kind == MOVE && m.i == i && m.j == j && m.di == DirI[k] && m.dj == DirJ[k] &&
      m.drop0 == d0 && m.drop1 == d1 && m.drop2 == d2
  {
  }

  /** A stack move of the d2 loop for fixed d0, d1 with d2 below n that passes the tests. */
  predicate InD2(b: seq<uint8>, i: uint8, j: uint8, h: int, k: int, d0: uint8, d1: uint8, n: nat, m: Move)
    requires |b| == BoardSize && OnBoard(i, j) && 0 <= k < 4
  {
    m.kind == MOVE && m.i == i && m.j == j && m.di == DirI[k] && m.dj == DirJ[k] &&
    m.drop0 == d0 && m.drop1 == d1 && m.drop2 < n && Accept(b, i, j, h, k, d0, d1, m.drop2)
  }

  lemma {:induction false} D1RangeMember(b: seq<uint8>, i: uint8, j: uint8, h: int, k: int, d0: uint8, n: nat, m: Move)
    requires |b| == BoardSize && OnBoard(i, j) && 0 <= k < 4 && 0 <= h <= MaxHeight && n <= Slots
    ensures m in D1Range(b, i, j, h, k, d0, n) <==>
      m.kind == MOVE && m.i == i && m.j == j && m.di == DirI[k] && m.dj == DirJ[k] &&
      m.drop0 == d0 && 1 <= m.drop1 < n && m.drop2 <= MaxDrop(b, i, j, h, k, 2) &&
      Accept(b, i, j, h, k, d0, m.drop1, m.drop2)
  {
    if n > 1 {
      D1RangeMember(b, i, j, h, k, d0, n - 1, m);
      var last := D2Range(b, i, j, h, k, d0, n - 1, MaxDrop(b, i, j, h, k, 2) + 1);
      D2RangeMember(b, i, j, h, k, d0, n - 1, MaxDrop(b, i, j, h, k, 2) + 1, m);
      assert D1Range(b, i, j, h, k, d0, n) == D1Range(b, i, j, h, k, d0, n - 1) + last;
      assert m in D1Range(b, i, j, h, k, d0, n) <==> m in D1Range(b, i, j, h, k, d0, n - 1) || m in last;
    }
  }

  lemma {:induction false} D0RangeMember(b: seq<uint8>, i: uint8, j: uint8, h: int, k: int, n: nat, m: Move)
    requires |b| == BoardSize && OnBoard(i, j) && 0 <= k < 4 && 0 <= h <= MaxHeight && n <= MaxHeight
    ensures m in D0Range(b, i, j, h, k, n) <==>
      m.kind == MOVE && m.i == i && m.j == j && m.di == DirI[k] && m.dj == DirJ[k] &&
      m.drop0 < n && 1 <= m.drop1 <= MaxDrop(b, i, j, h, k, 1) && m.drop2 <= MaxDrop(b, i, j, h, k, 2) &&
      Accept(b, i, j, h, k, m.drop0, m.drop1, m.drop2)
  {
    if n > 0 {
      D0RangeMember(b, i, j, h, k, n - 1, m);
      var last := D1Range(b, i, j, h, k, n - 1, MaxDrop(b, i, j, h, k, 1) + 1);
      D1RangeMember(b, i, j, h, k, n - 1, MaxDrop(b, i, j, h, k, 1) + 1, m);
      assert D0Range(b, i, j, h, k, n) == D0Range(b, i, j, h, k, n - 1) + last;
      assert m in D0Range(b, i, j, h, k, n) <==> m in D0Range(b, i, j, h, k, n - 1) || m in last;
    }
  }

  lemma {:induction false} LineMovesMember(b: seq<uint8>, i: uint8, j: uint8, h: int, n: nat, m: Move)
    requires |b| == BoardSize && OnBoard(i, j) && 0 <= h <= MaxHeight && n <= 4
    ensures m in LineMoves(b, i, j, h, n) <==> DirIndex(m.di, m.dj) < n && InDirection(b, i, j, h, DirIndex(m.di, m.dj), m)
  {
    if n > 0 {
      LineMovesMember(b, i, j, h, n - 1, m);
      D0RangeMember(b, i, j, h, n - 1, h, m);
      var last := DirectionMoves(b, i, j, h, n - 1);
      assert LineMoves(b, i, j, h, n) == LineMoves(b, i, j, h, n - 1) + last;
      assert m in LineMoves(b, i, j, h, n) <==> m in LineMoves(b, i, j, h, n - 1) || m in last;
      if DirIndex(m.di, m.dj) == n - 1 {
        assert m in last <==> InDirection(b, i, j, h, n - 1, m);
      } else {
        assert m !in last;
      }
    }
  }

  lemma CellMovesMember(g: Game, i: uint8, j: uint8, m: Move)
    requires OnBoard(i, j)
    ensures m in CellMoves(g, i, j) <==> m.i == i && m.j == j && IsLegal(g, m)
  {
    LineMovesMember(g.board, i, j, HeightAt(g.board, i, j), 4, m);
  }

  lemma {:induction false} RowMovesMember(g: Game, i: uint8, n: nat, m: Move)
    requires i < 4 && n <= 4
    ensures m in RowMoves(g, i, n) <==> m.i == i && m.j < n && IsLegal(g, m)
  {
    if n > 0 {
      RowMovesMember(g, i, n - 1, m);
      CellMovesMember(g, i, n - 1, m);
    }
  }

  lemma {:induction false} RowsMovesMember(g: Game, n: nat, m: Move)
    requires n <= 4
    ensures m in RowsMoves(g, n) <==> m.i < n && IsLegal(g, m)
  {
    if n > 0 {
      RowsMovesMember(g, n - 1, m);
      RowMovesMember(g, n - 1, 4, m);
    }
  }

  /** A move is generated by `available_moves` exactly when it is legal. */
  lemma LegalMovesMember(g: Game, m: Move)
    ensures m in LegalMoves(g) <==> IsLegal(g, m)
  {
    RowsMovesMember(g, 4, m);
  }

  /** In byte arithmetic, the c-th cell of a line leaves the board exactly when the int
      coordinate does, and otherwise they agree. */
  lemma DestCoordLine(i: int, c: int, d: int)
    requires 0 <= i < 4 && 1 <= c <= 3 && -1 <= d <= 1
    ensures DestCoord(i, c, d % 256) < 4 <==> 0 <= i + c * d < 4
    ensures 0 <= i + c * d < 4 ==> DestCoord(i, c, d % 256) == i + c * d
  {
    if d == -1 {
      assert d % 256 == 255;
      assert c == 1 || c == 2 || c == 3;
    }
  }

  /** What every generated stack move satisfies: it leaves 0 <= drop0 <= h - 1 on the source
      and drops at least one piece on the first cell, the drops before the third cell sum to
      at most h and the implied third drop is within `max_drops[3]`; every cell that gets
      pieces is reached without passing the edge or a wall and stays below height 8, and so
      does the source. The second drop may be 0 while the third is not. */
  lemma LegalStackMove(g: Game, m: Move)
    requires IsLegal(g, m) && m.kind == MOVE
    ensures var b := g.board;
      var h := HeightAt(b, m.i, m.j);
      var k := DirIndex(m.di, m.dj);
      var d3 := h - m.drop0 - m.drop1 - m.drop2;
      IsDirection(m.di, m.dj) && 1 <= h &&
      (Top(b, m.i, m.j) == g.turn || Top(b, m.i, m.j) == g.turn + WallOffset) &&
      0 <= m.drop0 <= h - 1 && m.drop1 >= 1 && m.drop0 + m.drop1 + m.drop2 <= h &&
      d3 <= MaxDrop(b, m.i, m.j, h, k, 3) &&
      m.drop0 + h < MaxHeight &&
      Open(b, m.i, m.j, k, 1) && Fits(b, m.i, m.j, k, 1, m.drop1) &&
      (m.drop2 > 0 ==> Open(b, m.i, m.j, k, 2) && Fits(b, m.i, m.j, k, 2, m.drop2)) &&
      (d3 > 0 ==> Open(b, m.i, m.j, k, 3) && Fits(b, m.i, m.j, k, 3, d3))
  {
  }

  /** Every generated move can be applied: `apply_move` stays inside the board. */
  lemma LegalIsDefined(g: Game, m: Move)
    requires IsLegal(g, m)
    ensures MoveDefined(g, m)
  {
    if m.kind == MOVE {
      LegalDropsAtMost8(g, m);
      ByteValue(HeightAt(g.board, m.i, m.j) - m.drop0 - m.drop1 - m.drop2);
    }
  }

  lemma LegalDropsAtMost8(g: Game, m: Move)
    requires IsLegal(g, m) && m.kind == MOVE
    ensures var d3 := HeightAt(g.board, m.i, m.j) - m.drop0 - m.drop1 - m.drop2;
      0 <= d3 <= MaxHeight && m.drop1 <= MaxHeight && m.drop2 <= MaxHeight
  {
    LegalStackMove(g, m);
  }

  lemma ByteValue(x: int)
    requires 0 <= x < 256
    ensures x % 256 == x
  {
  }

  /** Every generated move indexes the 6 x 7 x 8 x 8 policy layout of the network:
      drop0 < 7, drop1 < 8 and drop2 < 8. */
  lemma LegalDropsInPolicy(g: Game, m: Move)
    requires IsLegal(g, m)
    ensures m.drop0 < 7 && m.drop1 < 8 && m.drop2 < 8
  {
    if m.kind == MOVE {
      LegalStackMove(g, m);
    }
  }

  /** A legal move with drop2 = 0 and drop3 = 1: a tower of three flats at a1 moving along
      the file leaves one piece, drops one on the next cell, none on the one after and the
      last on the third; the second cell is passed over. */
  lemma SkipsSecondCell()
    ensures var g := Game(SkipBoard(), 15, 15, 1);
      var m := Move(MOVE, 0, 0, 1, 0, 1, 1, 0);
      IsLegal(g, m) && HeightAt(g.board, 0, 0) - m.drop0 - m.drop1 - m.drop2 == 1
  {
    var b := SkipBoard();
    var g := Game(b, 15, 15, 1);
    var m := Move(MOVE, 0, 0, 1, 0, 1, 1, 0);
    HeightUnique(StackAt(b, 0, 0), 3);
    HeightUnique(StackAt(b, 1, 0), 0);
    HeightUnique(StackAt(b, 3, 0), 0);
    assert Open(b, 0, 0, 0, 1) && Open(b, 0, 0, 0, 2) && Open(b, 0, 0, 0, 3);
    assert MaxDrop(b, 0, 0, 3, 0, 1) == 3 && MaxDrop(b, 0, 0, 3, 0, 2) == 2 && MaxDrop(b, 0, 0, 3, 0, 3) == 1;
    assert Fits(b, 0, 0, 0, 1, 1) && Fits(b, 0, 0, 0, 3, 1);
    assert Accept(b, 0, 0, 3, 0, 1, 1, 0);
    assert IsLegal(g, m);
  }

  /** A tower of three player-1 flats at (0, 0) on an otherwise empty board. */
  function SkipBoard(): Board
  {
    seq(BoardSize, k => if k < 3 then 1 else 0)
  }

  /** On a board with every cell empty, with a non-zero turn, row i gives two placements
      per cell and nothing else. */
  lemma {:induction false} EmptyRow(g: Game, i: uint8, n: nat)
    requires i < 4 && n <= 4 && g.turn != 0
    requires forall x, y :: OnBoard(x, y) ==> Top(g.board, x, y) == 0
    ensures |RowMoves(g, i, n)| == 2 * n
    ensures forall m :: m in RowMoves(g, i, n) ==> m.kind != MOVE
  {
    if n > 0 {
      EmptyRow(g, i, n - 1);
      assert Top(g.board, i, n - 1) == 0;
    }
  }

  lemma {:induction false} EmptyRows(g: Game, n: nat)
    requires n <= 4 && g.turn != 0
    requires forall x, y :: OnBoard(x, y) ==> Top(g.board, x, y) == 0
    ensures |RowsMoves(g, n)| == 8 * n
    ensures forall m :: m in RowsMoves(g, n) ==> m.kind != MOVE
  {
    if n > 0 {
      EmptyRows(g, n - 1);
      EmptyRow(g, n - 1, 4);
    }
  }

  /** `available_moves(new_tak_game())` has 32 moves: a flat and a wall on each cell. */
  lemma NewGameMoves(g: Game)
    requires g == NewTakGame()
    ensures |LegalMoves(g)| == 32
    ensures forall m :: m in LegalMoves(g) ==> m.kind != MOVE
  {
    EmptyTops(g.board);
    EmptyBoardMoves(g);
  }

  /** Every cell of the empty board has top 0. */
  lemma EmptyTops(b: seq<uint8>)
    requires b == EmptyBoard()
    ensures |b| == BoardSize && forall x, y :: OnBoard(x, y) ==> Top(b, x, y) == 0
  {
  }

  /** With every cell empty and a non-zero turn, the only moves are the 32 placements. */
  lemma EmptyBoardMoves(g: Game)
    requires g.turn != 0 && forall x, y :: OnBoard(x, y) ==> Top(g.board, x, y) == 0
    ensures |LegalMoves(g)| == 32
    ensures forall m :: m in LegalMoves(g) ==> m.kind != MOVE
  {
    EmptyRows(g, 4);
  }
}
