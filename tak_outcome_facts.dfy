/** What `game_outcome` (mcts/src/game.cpp:228-321) decides, stated in terms of roads, empty
    cells and flat counts, and what an unfinished game guarantees to the move generator and
    to `apply_move`. */
module OutcomeFacts {
  import opened TakTypes
  import opened Engine
  import opened Moves
  import opened MoveFacts
  import opened UnionFind
  import opened Scoring
  import opened Roads

  /** Some cell x < n has top `code`. */
  lemma {:induction false} CountWitness(b: seq<uint8>, code: int, n: nat) returns (c: Coord)
    requires |b| == BoardSize && n <= Cells && CountTop(b, code, n) > 0
    ensures OnBoard(c.0, c.1) && Id(c) < n && Top(b, c.0, c.1) == code
  {
    if CountTop(b, code, n - 1) > 0 {
      c := CountWitness(b, code, n - 1);
    } else {
      c := CoordOf(n - 1);
    }
  }

  /** A cell x < n with top `code` makes the count positive. */
  lemma {:induction false} CountPositive(b: seq<uint8>, code: int, n: nat, c: Coord)
    requires |b| == BoardSize && n <= Cells && OnBoard(c.0, c.1) && Id(c) < n && Top(b, c.0, c.1) == code
    ensures CountTop(b, code, n) > 0
  {
    if Id(c) < n - 1 {
      CountPositive(b, code, n - 1, c);
    }
  }

  /** A cell of the board is empty. */
  ghost predicate SomeEmpty(b: seq<uint8>)
    requires |b| == BoardSize
  {
    exists c: Coord :: OnBoard(c.0, c.1) && Top(b, c.0, c.1) == 0
  }

  lemma EmptyCount(b: seq<uint8>)
    requires |b| == BoardSize
    ensures SomeEmpty(b) <==> CountTop(b, 0, Cells) > 0
  {
    if CountTop(b, 0, Cells) > 0 {
      var c := CountWitness(b, 0, Cells);
    }
    if c: Coord :| OnBoard(c.0, c.1) && Top(b, c.0, c.1) == 0 {
      CountPositive(b, 0, Cells, c);
    }
  }

  /** The outcome once a player's reserve is empty: the game is over, and the player with
      more flat tops wins, equal counts tying, whatever roads the board holds. */
  lemma ReserveOutcome(g: Game)
    requires g.p1Pieces == 0 || g.p2Pieces == 0
    ensures var c1, c2 := CountTop(g.board, 1, Cells), CountTop(g.board, 2, Cells);
      (OutcomeOf(g) == P1_WIN <==> c1 > c2) &&
      (OutcomeOf(g) == P2_WIN <==> c2 > c1) &&
      (OutcomeOf(g) == TIE <==> c1 == c2) &&
      OutcomeOf(g) != IN_PROGRESS
  {
  }

  /** While both reserves hold pieces: a player with a road wins when the other has none; a
      win without a road is a full board decided by flat counts, with equal counts going to
      player 2; the game goes on exactly when no road exists and a cell is empty; and it
      never ends in a tie. */
  lemma RoadOutcome(g: Game)
    requires g.p1Pieces > 0 && g.p2Pieces > 0
    ensures var b := g.board;
      var c1, c2 := CountTop(b, 1, Cells), CountTop(b, 2, Cells);
      (OutcomeOf(g) == IN_PROGRESS <==> !HasRoad(b, 1) && !HasRoad(b, 2) && SomeEmpty(b)) &&
      (HasRoad(b, 1) && !HasRoad(b, 2) ==> OutcomeOf(g) == P1_WIN) &&
      (HasRoad(b, 2) && !HasRoad(b, 1) ==> OutcomeOf(g) == P2_WIN) &&
      (OutcomeOf(g) == P1_WIN ==> HasRoad(b, 1) || (!HasRoad(b, 2) && !SomeEmpty(b) && c1 > c2)) &&
      (OutcomeOf(g) == P2_WIN ==> HasRoad(b, 2) || (!HasRoad(b, 1) && !SomeEmpty(b) && c1 <= c2)) &&
      (!HasRoad(b, 1) && !HasRoad(b, 2) && !SomeEmpty(b) ==> OutcomeOf(g) == if c1 > c2 then P1_WIN else P2_WIN) &&
      OutcomeOf(g) != TIE
  {
    RoadScanCorrect(g.board);
    EmptyCount(g.board);
  }

  /** An unfinished game has both reserves above zero, so placing never wraps a reserve. */
  lemma InProgressReserves(g: Game, m: Move)
    requires OutcomeOf(g) == IN_PROGRESS && (g.turn == 1 || g.turn == 2)
    requires m.kind != MOVE && MoveDefined(g, m)
    ensures g.p1Pieces > 0 && g.p2Pieces > 0
    ensures g.turn == 1 ==> Apply(g, m).p1Pieces == g.p1Pieces - 1
    ensures g.turn == 2 ==> Apply(g, m).p2Pieces == g.p2Pieces - 1
  {
    ApplyPlacement(g, m);
  }

  /** An unfinished game offers at least a flat and a wall on some empty cell. */
  lemma InProgressHasMoves(g: Game)
    requires OutcomeOf(g) == IN_PROGRESS
    ensures |LegalMoves(g)| >= 2
  {
    RoadOutcome(g);
    var c: Coord :| OnBoard(c.0, c.1) && Top(g.board, c.0, c.1) == 0;
    var flat := Move(FLAT, c.0, c.1, 0, 0, 0, 0, 0);
    var wall := Move(WALL, c.0, c.1, 0, 0, 0, 0, 0);
    LegalMovesMember(g, flat);
    LegalMovesMember(g, wall);
    TwoMembers(LegalMoves(g), flat, wall);
  }

  lemma TwoMembers<T>(s: seq<T>, x: T, y: T)
    requires x in s && y in s && x != y
    ensures |s| >= 2
  {
  }

  /** The board alternating placements leave when player 1 fills column 0 from the top, n
      flats, while player 2 answers with n - 1 flats down column 2. */
  function ColumnBoard(n: nat): Board
  {
    seq(BoardSize, k requires 0 <= k < BoardSize => if k % Slots == 0 then ColumnCode(n, k / Slots) else 0)
  }

  function ColumnCode(n: nat, x: int): uint8
  {
    if x % 4 == 0 && x / 4 < n then 1 else if x % 4 == 2 && x / 4 + 1 < n then 2 else 0
  }

  lemma ColumnTop(n: nat, c: Coord)
    requires OnBoard(c.0, c.1)
    ensures Top(ColumnBoard(n), c.0, c.1) == if c.1 == 0 && c.0 < n then 1 else if c.1 == 2 && c.0 + 1 < n then 2 else 0
  {
    var x := Id(c);
    assert Base(c.0, c.1) % Slots == 0 && Base(c.0, c.1) / Slots == x;
    assert x % 4 == c.1 && x / 4 == c.0;
  }

  /** Player 2's flats in column 2 of a column board never make a road. */
  lemma NoColumnRoad2(n: nat, g: Game)
    requires n <= 4 && g.board == ColumnBoard(n)
    ensures !HasRoad(g.board, 2)
  {
    if w: seq<Coord> :| Road(g.board, 2, w) {
      ColumnTop(n, w[0]);
      ColumnTop(n, Last(w));
    }
  }

  /** The fourth flat of player 1's column completes a road from the top row to the bottom
      row and wins. */
  lemma ColumnOfFour(g: Game)
    requires g.board == ColumnBoard(4) && g.p1Pieces > 0 && g.p2Pieces > 0
    ensures OutcomeOf(g) == P1_WIN
  {
    var w: seq<Coord> := [(0, 0), (1, 0), (2, 0), (3, 0)];
    forall n | 0 <= n < |w|
      ensures Top(g.board, w[n].0, w[n].1) == 1
    {
      ColumnTop(4, w[n]);
    }
    assert Road(g.board, 1, w);
    NoColumnRoad2(4, g);
    RoadOutcome(g);
  }

  /** With three flats in the column the game goes on. */
  lemma ColumnOfThree(g: Game)
    requires g.board == ColumnBoard(3) && g.p1Pieces > 0 && g.p2Pieces > 0
    ensures OutcomeOf(g) == IN_PROGRESS
  {
    if w: seq<Coord> :| Road(g.board, 1, w) {
      ColumnTop(3, w[0]);
      ColumnTop(3, Last(w));
    }
    NoColumnRoad2(3, g);
    ColumnTop(3, (3, 3));
    RoadOutcome(g);
  }

  /** The initial game is in progress. */
  lemma NewGameInProgress(g: Game)
    requires g == NewTakGame()
    ensures OutcomeOf(g) == IN_PROGRESS
  {
    NoRoadOnEmpty(g.board, 1);
    NoRoadOnEmpty(g.board, 2);
    var c: Coord := (0, 0);
    assert Top(g.board, c.0, c.1) == 0;
    RoadOutcome(g);
  }

  lemma NoRoadOnEmpty(b: seq<uint8>, p: int)
    requires b == EmptyBoard()
    ensures !HasRoad(b, p)
  {
  }
}
