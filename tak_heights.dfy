/** Every stack the engine can reach stays below height 8: `get_tower_height` never finds
    all eight piece slots filled (mcts/src/game.cpp:14-20), because a placement only goes on
    an empty cell and `search_line` accepts a drop only when it still fits below 8
    (mcts/src/game.cpp:125-128). */
module Heights {
  import opened TakTypes
  import opened Stacks
  import opened Engine
  import opened Moves
  import opened MoveFacts
  import opened TowerFacts

  /** No stack of the board fills all eight piece slots. */
  ghost predicate Bounded(b: seq<uint8>)
    requires |b| == BoardSize
  {
    forall u, v :: OnBoard(u, v) ==> HeightAt(b, u, v) < MaxHeight
  }

  /** A placement on an empty cell gives that cell height at most 1. */
  lemma PlacedLow(b: seq<uint8>, i: int, j: int, piece: uint8)
    requires |b| == BoardSize && OnBoard(i, j) && Top(b, i, j) == 0
    ensures HeightAt(Placed(b, i, j, piece), i, j) <= 1
  {
    PlacedStack(b, i, j, piece);
    var s := StackAt(Placed(b, i, j, piece), i, j);
    assert s[1] == StackAt(b, i, j)[0] == 0;
  }

  /** A legal placement keeps every stack below height 8. */
  lemma PlacementKeepsHeights(g: Game, m: Move)
    requires IsLegal(g, m) && m.kind != MOVE && Bounded(g.board)
    ensures MoveDefined(g, m) && Bounded(Apply(g, m).board)
  {
    var piece: uint8 := if m.kind == FLAT then g.turn else (g.turn + WallOffset) % 256;
    var r := Apply(g, m).board;
    assert r == Placed(g.board, m.i, m.j, piece);
    PlacedLow(g.board, m.i, m.j, piece);
    PlacedStack(g.board, m.i, m.j, piece);
    OtherCellsKept(g.board, r, m.i, m.j);
  }

  /** A stack move's effect keeps every stack below height 8 when the source keeps fewer
      than 8 pieces and each drop still fits on the stack it lands on. */
  lemma EffectKeepsHeights(b: seq<uint8>, r: seq<uint8>, i: int, j: int, k: int, d0: nat, d1: nat, d2: nat, d3: nat)
    requires |b| == |r| == BoardSize && OnBoard(i, j) && 0 <= k < 4
    requires d0 + d1 + d2 + d3 == HeightAt(b, i, j) < MaxHeight
    requires TowerEffect(b, r, i, j, k, d0, d1, d2, d3) && Bounded(b)
    requires HeightAt(r, i, j) == d0
    requires var c := Along(i, j, k, 1); OnBoard(c.0, c.1) && d1 + HeightAt(b, c.0, c.1) < MaxHeight
    requires var c := Along(i, j, k, 2); d2 > 0 ==> OnBoard(c.0, c.1) && d2 + HeightAt(b, c.0, c.1) < MaxHeight
    requires var c := Along(i, j, k, 3); d3 > 0 ==> OnBoard(c.0, c.1) && d3 + HeightAt(b, c.0, c.1) < MaxHeight
    ensures Bounded(r)
  {
    var S := Pieces(b, i, j);
    var c1, c2, c3 := Along(i, j, k, 1), Along(i, j, k, 2), Along(i, j, k, 3);
    forall u, v | OnBoard(u, v)
      ensures HeightAt(r, u, v) < MaxHeight
    {
      if (u, v) == (i, j) {
      } else if (u, v) == c1 {
        assert Pieces(r, u, v) == S[..d1] + Pieces(b, u, v);
      } else if d2 > 0 && (u, v) == c2 {
        assert Pieces(r, u, v) == S[d1..d1 + d2] + Pieces(b, u, v);
      } else if d3 > 0 && (u, v) == c3 {
        assert Pieces(r, u, v) == S[d1 + d2..d1 + d2 + d3] + Pieces(b, u, v);
      } else {
        assert StackAt(r, u, v) == StackAt(b, u, v);
      }
    }
  }

  /** A legal stack move keeps every stack below height 8: each destination gains its drop on
      top of a stack that the drop still fits on, the source keeps `drop0` pieces, and every
      other cell is unchanged. */
  lemma StackMoveKeepsHeights(g: Game, m: Move)
    requires IsLegal(g, m) && m.kind == MOVE && Bounded(g.board)
    ensures MoveDefined(g, m) && Bounded(Apply(g, m).board)
  {
    TowerPieces(g, m);
    var d3 := LegalShape(g, m);
    EffectKeepsHeights(g.board, Apply(g, m).board, m.i as int, m.j as int, DirIndex(m.di, m.dj),
                       m.drop0 as nat, m.drop1 as nat, m.drop2 as nat, d3 as nat);
  }

  /** Every move `available_moves` offers keeps every stack below height 8. */
  lemma LegalMoveKeepsHeights(g: Game, m: Move)
    requires m in LegalMoves(g) && Bounded(g.board)
    ensures MoveDefined(g, m) && Bounded(Apply(g, m).board)
  {
    LegalMovesMember(g, m);
    if m.kind == MOVE {
      StackMoveKeepsHeights(g, m);
    } else {
      PlacementKeepsHeights(g, m);
    }
  }

  /** Every offered move can be applied. */
  lemma OfferedDefined(g: Game, m: Move)
    requires m in LegalMoves(g)
    ensures MoveDefined(g, m)
  {
    LegalMovesMember(g, m);
    LegalIsDefined(g, m);
  }

  /** The game after playing ms from g, or None as soon as a move is not offered. */
  function Played(g: Game, ms: seq<Move>): Option<Game>
    decreases |ms|
  {
    if |ms| == 0 then Some(g)
    else if ms[0] in LegalMoves(g) then
      OfferedDefined(g, ms[0]);
      Played(Apply(g, ms[0]), ms[1..])
    else None
  }

  /** Every game reached from g by offered moves keeps the bound g has. */
  lemma {:induction false} PlayedKeepsHeights(g: Game, ms: seq<Move>)
    requires Bounded(g.board) && Played(g, ms).Some?
    ensures Bounded(Played(g, ms).value.board)
    decreases |ms|
  {
    if |ms| > 0 {
      LegalMoveKeepsHeights(g, ms[0]);
      assert Played(g, ms) == Played(Apply(g, ms[0]), ms[1..]);
      PlayedKeepsHeights(Apply(g, ms[0]), ms[1..]);
    }
  }

  /** From the starting position, every game of offered moves has every stack below
      height 8. */
  lemma ReachableHeights(g: Game, ms: seq<Move>)
    requires g == NewTakGame() && Played(g, ms).Some?
    ensures Bounded(Played(g, ms).value.board)
  {
    EmptyTops(g.board);
    forall u, v | OnBoard(u, v)
      ensures HeightAt(g.board, u, v) < MaxHeight
    {
      assert StackAt(g.board, u, v)[0] == Top(g.board, u, v);
    }
    PlayedKeepsHeights(g, ms);
  }
}
