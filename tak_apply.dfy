/** Applying a move to a game, move equality and the initial game (mcts/src/game.cpp:64-85,
    188-201, 324-330). */
module Engine {
  import opened TakTypes
  import opened Stacks

  /** `apply_move` stays inside the board: the cell is on the board and, for a tower move,
      every drop that lands fits a cell. The tower's direction reaches `move_tower` as bytes. */
  predicate MoveDefined(g: Game, m: Move)
  {
    OnBoard(m.i, m.j) &&
    (m.kind == MOVE ==> TowerDefined(g.board, m.i, m.j, m.di % 256, m.dj % 256, m.drop0, m.drop1, m.drop2))
  }

  /** The game `apply_move` builds from a copy of g. Placing takes one piece from the mover's
      reserve, a byte that wraps below 0; the turn passes with `turn % 2 + 1`. */
  function Apply(g: Game, m: Move): Game
    requires MoveDefined(g, m)
  {
    var board := match m.kind
      case FLAT => Placed(g.board, m.i, m.j, g.turn)
      case WALL => Placed(g.board, m.i, m.j, (g.turn + WallOffset) % 256)
      case MOVE => TowerMoved(g.board, m.i, m.j, m.di % 256, m.dj % 256, m.drop0, m.drop1, m.drop2);
    var p1 := if m.kind != MOVE && g.turn == 1 then (g.p1Pieces as int - 1) % 256 else g.p1Pieces;
    var p2 := if m.kind != MOVE && g.turn != 1 then (g.p2Pieces as int - 1) % 256 else g.p2Pieces;
    Game(board, p1, p2, g.turn % 2 + 1)
  }

  /** `apply_move`: copy the old game, change the copy's board in place, then the reserves and
      the turn. The old game is a value and is not changed. */
  method ApplyMove(oldGame: Game, m: Move) returns (g: Game)
    requires MoveDefined(oldGame, m)
    ensures g == Apply(oldGame, m)
  {
    var b := new uint8[BoardSize](k requires 0 <= k < BoardSize => oldGame.board[k]);
    assert b[..] == oldGame.board;
    var p1, p2, turn := oldGame.p1Pieces, oldGame.p2Pieces, oldGame.turn;
    match m.kind {
      case FLAT => AddPiece(b, m.i, m.j, turn);
      case WALL => AddPiece(b, m.i, m.j, turn + WallOffset);
      case MOVE => MoveTower(b, m.i, m.j, m.di % 256, m.dj % 256, m.drop0, m.drop1, m.drop2);
    }
    if m.kind != MOVE {
      if turn == 1 {
        p1 := (p1 as int - 1) % 256;
      } else {
        p2 := (p2 as int - 1) % 256;
      }
    }
    turn := turn % 2 + 1;
    g := Game(b[..], p1, p2, turn);
  }

  /** Two boards agree on every byte outside [lo, hi). */
  predicate SameOutside(b: seq<uint8>, b': seq<uint8>, lo: int, hi: int)
    requires |b| == |b'|
  {
    forall k :: 0 <= k < |b| && !(lo <= k < hi) ==> b[k] == b'[k]
  }

  /** Cells whose slots lie outside a changed range keep their stacks. */
  lemma StackOutside(b: seq<uint8>, b': seq<uint8>, lo: int, hi: int, x: int, y: int)
    requires |b| == |b'| == BoardSize && OnBoard(x, y) && SameOutside(b, b', lo, hi)
    requires Base(x, y) + Slots <= lo || hi <= Base(x, y)
    ensures StackAt(b', x, y) == StackAt(b, x, y)
  {
  }

  /** A change confined to the slots of cell (i, j) leaves every other cell's stack alone. */
  lemma OtherCellsKept(b: seq<uint8>, b': seq<uint8>, i: int, j: int)
    requires |b| == |b'| == BoardSize && OnBoard(i, j) && SameOutside(b, b', Base(i, j), Base(i, j) + Slots)
    ensures forall x, y :: OnBoard(x, y) && (x != i || y != j) ==> StackAt(b', x, y) == StackAt(b, x, y)
  {
    forall x, y | OnBoard(x, y) && (x != i || y != j)
      ensures StackAt(b', x, y) == StackAt(b, x, y)
    {
      assert 4 * x + y != 4 * i + j;
      StackOutside(b, b', Base(i, j), Base(i, j) + Slots, x, y);
    }
  }

  /** What placing does to the cell: the code on top, the old slots 0..6 one lower, slot 8
      kept; every other cell is unchanged. */
  lemma PlacedStack(b: seq<uint8>, i: int, j: int, piece: uint8)
    requires |b| == BoardSize && OnBoard(i, j)
    ensures var r := Placed(b, i, j, piece);
      StackAt(r, i, j) == [piece] + StackAt(b, i, j)[..MaxHeight - 1] + [StackAt(b, i, j)[MaxHeight]] &&
      SameOutside(b, r, Base(i, j), Base(i, j) + Slots)
  {
    var base := Base(i, j);
    var r := Placed(b, i, j, piece);
    var m := MemMoved(b, base + 1, base, MaxHeight - 1);
    forall k | 0 <= k < |b|
      ensures m[k] == if base + 1 <= k < base + MaxHeight then b[k - 1] else b[k]
    {
      MemMovedAt(b, base + 1, base, MaxHeight - 1, k);
    }
    var s := StackAt(b, i, j);
    assert StackAt(r, i, j) == [piece] + s[..MaxHeight - 1] + [s[MaxHeight]];
  }

  /** Placing on an empty cell gives it height 1 with the piece on top. */
  lemma PlacedOnEmpty(b: seq<uint8>, i: int, j: int, piece: uint8)
    requires |b| == BoardSize && OnBoard(i, j) && Top(b, i, j) == 0 && piece != 0
    ensures Top(Placed(b, i, j, piece), i, j) == piece
    ensures HeightAt(Placed(b, i, j, piece), i, j) == 1
  {
    PlacedStack(b, i, j, piece);
    var s := StackAt(Placed(b, i, j, piece), i, j);
    assert s[0] == piece && s[1] == StackAt(b, i, j)[0] == 0;
    HeightUnique(s, 1);
  }

  /** `apply_move` for FLAT and WALL: the mover's flat (`turn`) or wall (`turn + 10`) is put on
      top of that cell and nothing else on the board changes; only the mover's reserve goes
      down by one, as a byte; the turn passes from 1 to 2 and from 2 to 1. */
  lemma ApplyPlacement(g: Game, m: Move)
    requires m.kind != MOVE && MoveDefined(g, m) && (g.turn == 1 || g.turn == 2)
    ensures var r := Apply(g, m);
      Top(r.board, m.i, m.j) == (if m.kind == FLAT then g.turn else g.turn + WallOffset) &&
      StackAt(r.board, m.i, m.j)[1..MaxHeight] == StackAt(g.board, m.i, m.j)[..MaxHeight - 1] &&
      (forall x, y :: OnBoard(x, y) && (x != m.i || y != m.j) ==>
         StackAt(r.board, x, y) == StackAt(g.board, x, y)) &&
      (g.turn == 1 ==> r.p1Pieces == (g.p1Pieces - 1) % 256 && r.p2Pieces == g.p2Pieces) &&
      (g.turn == 2 ==> r.p2Pieces == (g.p2Pieces - 1) % 256 && r.p1Pieces == g.p1Pieces) &&
      r.turn == 3 - g.turn
  {
    var piece: uint8 := if m.kind == FLAT then g.turn else g.turn + WallOffset;
    var r := Apply(g, m);
    assert r.board == Placed(g.board, m.i, m.j, piece);
    PlacedStack(g.board, m.i, m.j, piece);
    OtherCellsKept(g.board, r.board, m.i, m.j);
    var s := StackAt(g.board, m.i, m.j);
    assert StackAt(r.board, m.i, m.j) == [piece] + s[..MaxHeight - 1] + [s[MaxHeight]];
  }

  /** `apply_move` for MOVE leaves both reserves alone and passes the turn. */
  lemma ApplyTowerMove(g: Game, m: Move)
    requires m.kind == MOVE && MoveDefined(g, m) && (g.turn == 1 || g.turn == 2)
    ensures var r := Apply(g, m);
      r.p1Pieces == g.p1Pieces && r.p2Pieces == g.p2Pieces && r.turn == 3 - g.turn &&
      r.board == TowerMoved(g.board, m.i, m.j, m.di % 256, m.dj % 256, m.drop0, m.drop1, m.drop2)
  {
  }

  /** `move_eq`: same kind and cell; for MOVE also the same direction and drops. */
  function MoveEq(a: Move, b: Move): bool
  {
    var firstPartEq := a.kind == b.kind && a.i == b.i && a.j == b.j;
    if a.kind == MOVE then
      firstPartEq && a.di == b.di && a.dj == b.dj && a.drop0 == b.drop0 && a.drop1 == b.drop1 && a.drop2 == b.drop2
    else firstPartEq
  }

  /** `move_eq` is an equivalence relation. */
  lemma MoveEqEquivalence(a: Move, b: Move, c: Move)
    ensures MoveEq(a, a)
    ensures MoveEq(a, b) ==> MoveEq(b, a)
    ensures MoveEq(a, b) && MoveEq(b, c) ==> MoveEq(a, c)
  {
  }

  /** For FLAT and WALL, `move_eq` looks only at kind and cell; for MOVE it is equality. */
  lemma MoveEqMeaning(a: Move, b: Move)
    ensures a.kind != MOVE ==> (MoveEq(a, b) <==> b.kind == a.kind && b.i == a.i && b.j == a.j)
    ensures a.kind == MOVE ==> (MoveEq(a, b) <==> a == b)
  {
  }

  /** Moves that `move_eq` identifies lead to the same game. */
  lemma MoveEqSameGame(g: Game, a: Move, b: Move)
    requires MoveEq(a, b) && MoveDefined(g, a)
    ensures MoveDefined(g, b) && Apply(g, a) == Apply(g, b)
  {
  }

  /** `new_tak_game`: an all-zero board, 15 pieces each, player 1 to move. */
  function NewTakGame(): Game
  {
    Game(EmptyBoard(), 15, 15, 1)
  }
}
