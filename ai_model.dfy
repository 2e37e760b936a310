/** The evaluator contract on the engine's side (mcts/src/ai_model.cpp): the board encoding
    fed to the network and the choice of the policy slot read for each move. The network,
    its softmax and the tensor library are supplied functions. */
module AiModel {
  import opened TakTypes
  import opened Moves
  import opened MoveFacts

  /** The value `encode_board` writes for one byte of the board. */
  function CodeValue(code: int): real
  {
    match code
    case 1 => -1.0
    case 2 => 1.0
    case 11 => -2.0
    case 12 => 2.0
    case _ => 0.0
  }

  /** The encoded board `encode_board` produces, slot by slot in memory order. */
  function Encoded(b: seq<uint8>): (e: seq<real>)
    requires |b| == BoardSize
    ensures |e| == BoardSize
  {
    seq(BoardSize, x requires 0 <= x < BoardSize => CodeValue(b[x]))
  }

  /** Every slot, including those below a stack's top, encodes as: negative for a piece of
      player 1, positive for player 2, magnitude 2 for a wall and 1 for a flat, and 0 for
      an empty slot or any other byte. The turn plays no part. */
  lemma EncodedMeaning(b: seq<uint8>, x: int)
    requires |b| == BoardSize && 0 <= x < BoardSize
    ensures var e, c := Encoded(b)[x], b[x];
      e in {-2.0, -1.0, 0.0, 1.0, 2.0} &&
      (e < 0.0 <==> c == 1 || c == 1 + WallOffset) &&
      (e > 0.0 <==> c == 2 || c == 2 + WallOffset) &&
      ((e == 2.0 || e == -2.0) <==> c == 1 + WallOffset || c == 2 + WallOffset) &&
      (e == 0.0 <==> c != 1 && c != 2 && c != 1 + WallOffset && c != 2 + WallOffset)
  {
  }

  /** `encode_board`: the triple loop over i, j and the nine slots of each cell. */
  method EncodeBoard(out: array<real>, b: seq<uint8>)
    requires |b| == BoardSize && out.Length == BoardSize
    modifies out
    ensures out[..] == Encoded(b)
  {
    for i := 0 to 4
      invariant forall x :: 0 <= x < i * 4 * Slots ==> out[x] == CodeValue(b[x])
    {
      for j := 0 to 4
        invariant forall x :: 0 <= x < (4 * i + j) * Slots ==> out[x] == CodeValue(b[x])
      {
        for k := 0 to Slots
          invariant forall x :: 0 <= x < (4 * i + j) * Slots + k ==> out[x] == CodeValue(b[x])
        {
          var n := (4 * i + j) * Slots + k;
          match b[n] {
            case 1 => out[n] := -1.0;
            case 2 => out[n] := 1.0;
            case 11 => out[n] := -2.0;
            case 12 => out[n] := 2.0;
            case _ => out[n] := 0.0;
          }
        }
      }
    }
    assert out[..] == Encoded(b);
  }

  /** The encoding from the side of the player to move, which the training encoder uses:
      the engine's encoding, negated when player 2 is to move. */
  function SideEncoded(g: Game): (e: seq<real>)
    ensures |e| == BoardSize
  {
    seq(BoardSize, x requires 0 <= x < BoardSize => if g.turn == 2 then -CodeValue(g.board[x]) else CodeValue(g.board[x]))
  }

  /** The corrected encoder: `encode_board` followed by a negation of every slot when player
      2 is to move, so that the network sees the board from the mover's side as in
      training. */
  method EncodeForMover(out: array<real>, g: Game)
    requires out.Length == BoardSize
    modifies out
    ensures out[..] == SideEncoded(g)
  {
    EncodeBoard(out, g.board);
    if g.turn == 2 {
      for x := 0 to BoardSize
        invariant forall y :: 0 <= y < x ==> out[y] == -CodeValue(g.board[y])
        invariant forall y :: x <= y < BoardSize ==> out[y] == CodeValue(g.board[y])
      {
        out[x] := -out[x];
      }
    }
    assert out[..] == SideEncoded(g);
  }

  /** The policy output has shape 4 x 4 x 6 x 7 x 8 x 8: cell, channel (flat, wall and
      the four directions), drop0, drop1, drop2. */
  const PolicySize := 4 * 4 * 6 * 7 * 8 * 8

  /** The policy head's output, flattened in row-major order. */
  type Policy = p: seq<real> | |p| == PolicySize witness seq(PolicySize, _ => 0.0)

  datatype Slot = Slot(i: int, j: int, channel: int, d0: int, d1: int, d2: int)

  /** The direction channel `get_eval` picks: 2 unless a later test overrides it. */
  function DirChannel(di: int, dj: int): int
  {
    if dj == -1 then 5 else if dj == 1 then 4 else if di == -1 then 3 else 2
  }

  /** The policy entry `get_eval` reads for a move. */
  function SlotOf(m: Move): Slot
  {
    match m.kind
    case FLAT => Slot(m.i, m.j, 0, 0, 0, 0)
    case WALL => Slot(m.i, m.j, 1, 0, 0, 0)
    case MOVE => Slot(m.i, m.j, DirChannel(m.di, m.dj), m.drop0, m.drop1, m.drop2)
  }

  predicate InLayout(s: Slot)
  {
    0 <= s.i < 4 && 0 <= s.j < 4 && 0 <= s.channel < 6 && 0 <= s.d0 < 7 && 0 <= s.d1 < 8 && 0 <= s.d2 < 8
  }

  /** Row-major position of a slot in the flattened policy. */
  function Index(s: Slot): int
  {
    ((((s.i * 4 + s.j) * 6 + s.channel) * 7 + s.d0) * 8 + s.d1) * 8 + s.d2
  }

  /** The flattening is one-to-one on the layout and stays inside the policy. */
  lemma IndexInjective(s: Slot, t: Slot)
    requires InLayout(s) && InLayout(t)
    ensures 0 <= Index(s) < PolicySize
    ensures Index(s) == Index(t) ==> s == t
  {
    var a1 := (((s.i * 4 + s.j) * 6 + s.channel) * 7 + s.d0) * 8 + s.d1;
    var b1 := (((t.i * 4 + t.j) * 6 + t.channel) * 7 + t.d0) * 8 + t.d1;
    var a2 := ((s.i * 4 + s.j) * 6 + s.channel) * 7 + s.d0;
    var b2 := ((t.i * 4 + t.j) * 6 + t.channel) * 7 + t.d0;
    var a3 := (s.i * 4 + s.j) * 6 + s.channel;
    var b3 := (t.i * 4 + t.j) * 6 + t.channel;
    var a4, b4 := s.i * 4 + s.j, t.i * 4 + t.j;
    assert 0 <= a4 < 16;
    assert 0 <= a3 < 96;
    assert 0 <= a2 < 672;
    assert 0 <= a1 < 5376;
    if Index(s) == Index(t) {
      assert a1 == b1 && s.d2 == t.d2;
      assert a2 == b2 && s.d1 == t.d1;
      assert a3 == b3 && s.d0 == t.d0;
      assert a4 == b4 && s.channel == t.channel;
      assert s.i == t.i && s.j == t.j;
    }
  }

  /** Every move `available_moves` offers reads an entry inside the policy layout, and
      different offered moves read different entries. */
  lemma LegalSlots(g: Game, m: Move, m': Move)
    requires m in LegalMoves(g) && m' in LegalMoves(g)
    ensures InLayout(SlotOf(m))
    ensures m != m' ==> SlotOf(m) != SlotOf(m')
  {
    LegalMovesMember(g, m);
    LegalMovesMember(g, m');
    LegalDropsInPolicy(g, m);
    LegalDropsInPolicy(g, m');
    if m.kind == MOVE {
      LegalStackMove(g, m);
    }
    if m'.kind == MOVE {
      LegalStackMove(g, m');
    }
  }

  /** The policy values `get_eval` collects for the moves, in move order. */
  function Picked(p: Policy, moves: seq<Move>): (ps: seq<real>)
    requires forall m :: m in moves ==> InLayout(SlotOf(m))
    ensures |ps| == |moves|
  {
    if |moves| == 0 then [] else
      IndexInjective(SlotOf(moves[|moves| - 1]), SlotOf(moves[|moves| - 1]));
      Picked(p, moves[..|moves| - 1]) + [p[Index(SlotOf(moves[|moves| - 1]))]]
  }

  /** Entry n of the collected values is the policy entry of move n. */
  lemma {:induction false} PickedAt(p: Policy, moves: seq<Move>, n: int)
    requires forall m :: m in moves ==> InLayout(SlotOf(m))
    requires 0 <= n < |moves|
    ensures 0 <= Index(SlotOf(moves[n])) < PolicySize
    ensures Picked(p, moves)[n] == p[Index(SlotOf(moves[n]))]
  {
    IndexInjective(SlotOf(moves[n]), SlotOf(moves[n]));
    if n < |moves| - 1 {
      var front := moves[..|moves| - 1];
      assert front[n] == moves[n];
      PickedAt(p, front, n);
    }
  }

  /** `get_eval`: encodes the board, runs the network on it, appends the policy value of
      each move to `ps` in move order and applies the softmax to `ps`; returns the value
      head. The network and the softmax are supplied. */
  method GetEval(net: seq<real> -> (real, Policy), softmax: seq<real> -> seq<real>, g: Game,
                 moves: seq<Move>, ps: seq<real>) returns (val: real, ps': seq<real>)
    requires forall m :: m in moves ==> InLayout(SlotOf(m))
    ensures var out := net(Encoded(g.board));
      val == out.0 && ps' == softmax(ps + Picked(out.1, moves))
  {
    var board := new real[BoardSize];
    EncodeBoard(board, g.board);
    var out := net(board[..]);
    val := out.0;
    var acc := CollectPolicy(out.1, moves, ps);
    ps' := softmax(acc);
  }

  /** The corrected `get_eval`: the same evaluation on the mover-relative board that the
      training data is encoded with. */
  method GetEvalForMover(net: seq<real> -> (real, Policy), softmax: seq<real> -> seq<real>, g: Game,
                         moves: seq<Move>, ps: seq<real>) returns (val: real, ps': seq<real>)
    requires forall m :: m in moves ==> InLayout(SlotOf(m))
    ensures var out := net(SideEncoded(g));
      val == out.0 && ps' == softmax(ps + Picked(out.1, moves))
  {
    var board := new real[BoardSize];
    EncodeForMover(board, g);
    var out := net(board[..]);
    val := out.0;
    var acc := CollectPolicy(out.1, moves, ps);
    ps' := softmax(acc);
  }

  /** The loop of `get_eval` over the moves: appends each move's policy entry to `ps`. */
  method CollectPolicy(p: Policy, moves: seq<Move>, ps: seq<real>) returns (acc: seq<real>)
    requires forall m :: m in moves ==> InLayout(SlotOf(m))
    ensures acc == ps + Picked(p, moves)
  {
    acc := ps;
    for n := 0 to |moves|
      invariant acc == ps + Picked(p, moves[..n])
    {
      var m := moves[n];
      var s := SlotOf(m);
      IndexInjective(s, s);
      assert moves[..n + 1][..n] == moves[..n];
      acc := acc + [p[Index(s)]];
    }
    assert moves[..|moves|] == moves;
  }
}
