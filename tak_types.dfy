/** Types of the 4x4 rules engine: the byte-level game state, moves and outcomes. */
module TakTypes {

  /** An unsigned byte (`uint8_t`). */
  type uint8 = x: int | 0 <= x < 256

  /** A signed byte (`int8_t`). */
  type int8 = x: int | -128 <= x < 128

  /** Pieces a stack can hold (`MAX_HEIGHT`). */
  const MaxHeight := 8
  /** Byte slots per cell: one more than the maximum height. */
  const Slots := MaxHeight + 1
  /** Wall codes are flat codes plus this offset. */
  const WallOffset := 10
  /** Bytes in the whole board, 4 x 4 cells of `Slots` bytes. */
  const BoardSize := 16 * Slots

  /** The board buffer `uint8_t board[4][4][9]` in memory order. */
  type Board = b: seq<uint8> | |b| == BoardSize witness EmptyBoard()

  function EmptyBoard(): seq<uint8>
  {
    seq(BoardSize, _ => 0)
  }

  /** `tak_game_t`: board, remaining pieces of each player, and whose turn it is. */
  datatype Game = Game(board: Board, p1Pieces: uint8, p2Pieces: uint8, turn: uint8)

  /** `move_option_t`, in declaration order. */
  datatype MoveKind = MOVE | FLAT | WALL

  /** `move_t`. For a MOVE, drop0 is what stays on the source; drop1 and drop2 land on the
      first two cells of the line, and the third cell gets the rest. */
  datatype Move = Move(kind: MoveKind, i: uint8, j: uint8, di: int8, dj: int8,
                       drop0: uint8, drop1: uint8, drop2: uint8)

  datatype Option<T> = None | Some(value: T)

  /** `game_outcome_t`. */
  datatype Outcome = IN_PROGRESS | P1_WIN | P2_WIN | TIE

  predicate OnBoard(i: int, j: int)
  {
    0 <= i < 4 && 0 <= j < 4
  }

  /** Offset of slot 0 of cell (i, j) in the board buffer. */
  function Base(i: int, j: int): (r: nat)
    requires OnBoard(i, j)
    ensures r + Slots <= BoardSize
  {
    (4 * i + j) * Slots
  }

  /** The nine slots of cell (i, j), top first. */
  function StackAt(b: seq<uint8>, i: int, j: int): (s: seq<uint8>)
    requires |b| == BoardSize && OnBoard(i, j)
    ensures |s| == Slots
    ensures forall h :: 0 <= h < Slots ==> s[h] == b[Base(i, j) + h]
  {
    b[Base(i, j)..Base(i, j) + Slots]
  }

  /** Slot 0 of cell (i, j): the piece on top, or 0 for an empty cell. */
  function Top(b: seq<uint8>, i: int, j: int): uint8
    requires |b| == BoardSize && OnBoard(i, j)
  {
    b[Base(i, j)]
  }

  predicate IsFlat(code: int)
  {
    code == 1 || code == 2
  }

  /** The four directions (di, dj) in the order the engine tries them. */
  const DirI: seq<int> := [1, -1, 0, 0]
  const DirJ: seq<int> := [0, 0, 1, -1]

  predicate IsDirection(di: int, dj: int)
  {
    (di == 1 && dj == 0) || (di == -1 && dj == 0) || (di == 0 && dj == 1) || (di == 0 && dj == -1)
  }
}
