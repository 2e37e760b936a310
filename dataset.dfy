/** The training-side encoders of model/dataset.py: the policy target of a recorded move
    and the board tensor of a recorded position, set against the engine's own encoders. */
module Dataset {
  import opened TakTypes
  import opened Moves
  import opened MoveFacts
  import opened AiModel

  /** `encode_dir`: the channel of one of the four directions; Python's `match` falls
      through to `None` for any other pair. */
  function EncodeDir(di: int, dj: int): Option<int>
  {
    if di == 1 && dj == 0 then Some(2)
    else if di == -1 && dj == 0 then Some(3)
    else if di == 0 && dj == 1 then Some(4)
    else if di == 0 && dj == -1 then Some(5)
    else None
  }

  /** The tuple `encode_move` returns; its channel is `None` when `encode_dir` is. */
  datatype Target = Target(i: int, j: int, channel: Option<int>, d0: int, d1: int, d2: int)

  /** `encode_move`. */
  function EncodeMove(m: Move): Target
  {
    match m.kind
    case MOVE => Target(m.i, m.j, EncodeDir(m.di, m.dj), m.drop0, m.drop1, m.drop2)
    case FLAT => Target(m.i, m.j, Some(0), 0, 0, 0)
    case WALL => Target(m.i, m.j, Some(1), 0, 0, 0)
  }

  /** The training target of a move is the policy slot the engine reads for it, for every
      placement and every stack move along one of the four directions; for any other
      direction the training side has no channel while the engine reads channel 2. */
  lemma TargetIsSlot(m: Move)
    ensures var t, s := EncodeMove(m), SlotOf(m);
      (t.channel.Some? <==> m.kind != MOVE || IsDirection(m.di, m.dj)) &&
      (t.channel.Some? ==> t == Target(s.i, s.j, Some(s.channel), s.d0, s.d1, s.d2))
  {
  }

  /** Every offered move has a training target, and it is the slot the engine reads. */
  lemma LegalTargets(g: Game, m: Move)
    requires m in LegalMoves(g)
    ensures var s := SlotOf(m);
      EncodeMove(m) == Target(s.i, s.j, Some(s.channel), s.d0, s.d1, s.d2)
  {
    LegalMovesMember(g, m);
    if m.kind == MOVE {
      LegalStackMove(g, m);
    }
    TargetIsSlot(m);
  }

  /** `map_n`: the tensor value of a piece code; the `assert False` for any other code is
      `None`. */
  function MapN(n: int): Option<int>
  {
    match n
    case 1 => Some(-1)
    case 2 => Some(1)
    case 11 => Some(-2)
    case 12 => Some(2)
    case 0 => Some(0)
    case _ => None
  }

  /** `flip`: the sign change for a position with player 2 to move. */
  function Flip(turn: int, n: int): int
  {
    if turn == 2 then -n else n
  }

  type Nested = seq<seq<seq<int>>>

  predicate ValidCodes(board: Nested)
  {
    forall r, c, k :: 0 <= r < |board| && 0 <= c < |board[r]| && 0 <= k < |board[r][c]| ==> MapN(board[r][c][k]).Some?
  }

  /** `encode_board`: the nested comprehension over rows, columns and slots, failing on the
      first code `map_n` rejects. */
  function EncodeBoard(board: Nested, turn: int): Option<Nested>
  {
    if ValidCodes(board) then
      Some(seq(|board|, r requires 0 <= r < |board| =>
        seq(|board[r]|, c requires 0 <= c < |board[r]| =>
          seq(|board[r][c]|, k requires 0 <= k < |board[r][c]| => Flip(turn, MapN(board[r][c][k]).value)))))
    else None
  }

  /** A recorded board as the nested lists its JSON form holds: rows, columns, slots. */
  function AsNested(b: seq<uint8>): (n: Nested)
    requires |b| == BoardSize
  {
    seq(4, i requires 0 <= i < 4 => seq(4, j requires 0 <= j < 4 => seq(Slots, k requires 0 <= k < Slots => b[Base(i, j) + k] as int)))
  }

  /** A byte is one of the codes the training encoder accepts. */
  predicate IsCode(c: int)
  {
    c == 0 || IsFlat(c) || IsFlat(c - WallOffset)
  }

  /** The training encoder accepts a recorded board exactly when every slot holds a code,
      where the engine's encoder maps anything else to 0; it keeps the 4 x 4 x 9 nesting,
      and each entry is the engine's value for that slot, negated when player 2 is to
      move. */
  lemma TrainingVersusEngine(g: Game)
    ensures var t := EncodeBoard(AsNested(g.board), g.turn);
      var e := Encoded(g.board);
      (t.Some? <==> AllCodes(g.board)) &&
      (t.Some? ==> |t.value| == 4 && forall i, j, k :: 0 <= i < 4 && 0 <= j < 4 && 0 <= k < Slots ==>
        |t.value[i]| == 4 && |t.value[i][j]| == Slots &&
        t.value[i][j][k] as real == if g.turn == 2 then -e[Base(i, j) + k] else e[Base(i, j) + k])
  {
    if AllCodes(g.board) {
      AllCodesAccepted(g.board);
    }
    if ValidCodes(AsNested(g.board)) {
      AcceptedAllCodes(g.board);
    }
  }

  /** A board of codes only passes every `map_n` of the training encoder. */
  lemma AllCodesAccepted(b: seq<uint8>)
    requires |b| == BoardSize && AllCodes(b)
    ensures ValidCodes(AsNested(b))
  {
    var n := AsNested(b);
    forall r, c, k | 0 <= r < |n| && 0 <= c < |n[r]| && 0 <= k < |n[r][c]|
      ensures MapN(n[r][c][k]).Some?
    {
      assert n[r][c][k] == b[Base(r, c) + k];
    }
  }

  /** A board the training encoder accepts holds codes only. */
  lemma AcceptedAllCodes(b: seq<uint8>)
    requires |b| == BoardSize && ValidCodes(AsNested(b))
    ensures AllCodes(b)
  {
    var n := AsNested(b);
    forall x | 0 <= x < BoardSize
      ensures IsCode(b[x])
    {
      var i, j, k := x / Slots / 4, x / Slots % 4, x % Slots;
      assert Base(i, j) + k == x;
      assert n[i][j][k] == b[x];
    }
  }

  predicate AllCodes(b: seq<uint8>)
  {
    forall x :: 0 <= x < |b| ==> IsCode(b[x])
  }

  /** The training tensor's entry for slot k of cell (i, j) of a recorded board. */
  function TrainingEntry(g: Game, i: int, j: int, k: int): int
    requires OnBoard(i, j) && 0 <= k < Slots && AllCodes(g.board)
  {
    TrainingVersusEngine(g);
    EncodeBoard(AsNested(g.board), g.turn).value[i][j][k]
  }

  /** With player 2 to move, the network is trained on each occupied slot with the
      opposite sign of what `get_eval` feeds it for the same position. */
  lemma PlayerTwoDiverges(g: Game, i: int, j: int, k: int)
    requires g.turn == 2 && OnBoard(i, j) && 0 <= k < Slots && AllCodes(g.board)
    ensures TrainingEntry(g, i, j, k) as real == Encoded(g.board)[Base(i, j) + k] <==> g.board[Base(i, j) + k] == 0
  {
    TrainingVersusEngine(g);
  }

  /** One flat of player 1 with player 2 to move: training sees +1, inference -1. */
  lemma OneFlatDiverges(g: Game)
    requires g.turn == 2 && g.board == EmptyBoard()[0 := 1]
    ensures AllCodes(g.board) && TrainingEntry(g, 0, 0, 0) == 1
    ensures Encoded(g.board)[0] == -1.0
  {
    TrainingVersusEngine(g);
    assert Base(0, 0) == 0;
  }

  /** The side-to-move encoding agrees with the training encoder on every recorded board
      it accepts, for both players. */
  lemma SideEncodedMatchesTraining(g: Game, i: int, j: int, k: int)
    requires OnBoard(i, j) && 0 <= k < Slots && AllCodes(g.board)
    ensures TrainingEntry(g, i, j, k) as real == SideEncoded(g)[Base(i, j) + k]
  {
    TrainingVersusEngine(g);
  }
}
