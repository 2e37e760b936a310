/** Stack-level operations of the rules engine on the board buffer: the byte moves of
    `memmove`, tower height, placing a piece and moving a tower (mcts/src/game.cpp:14-61). */
module Stacks {
  import opened TakTypes

  /** The buffer after `memmove(&s[dst], &s[src], n)`: the n bytes at src, read before any
      is written, now also stand at dst; everything else is as before. */
  function MemMoved(s: seq<uint8>, dst: nat, src: nat, n: nat): (r: seq<uint8>)
    requires dst + n <= |s| && src + n <= |s|
    ensures |r| == |s|
  {
    s[..dst] + s[src..src + n] + s[dst + n..]
  }

  /** Byte k after a memmove: taken from the source range inside the target range, unchanged
      outside it. */
  lemma MemMovedAt(s: seq<uint8>, dst: nat, src: nat, n: nat, k: nat)
    requires dst + n <= |s| && src + n <= |s| && k < |s|
    ensures MemMoved(s, dst, src, n)[k] == if dst <= k < dst + n then s[src + (k - dst)] else s[k]
  {
  }

  /** `memmove` on a byte buffer: copies forward when the target lies before the source and
      backward otherwise, so overlapping ranges are handled. */
  method MemMove(a: array<uint8>, dst: nat, src: nat, n: nat)
    requires dst + n <= a.Length && src + n <= a.Length
    modifies a
    ensures a[..] == MemMoved(old(a[..]), dst, src, n)
  {
    ghost var o := a[..];
    if dst <= src {
      var k := 0;
      while k < n
        invariant 0 <= k <= n
        invariant forall x :: 0 <= x < dst ==> a[x] == o[x]
        invariant forall x :: dst <= x < dst + k ==> a[x] == o[src + (x - dst)]
        invariant forall x :: dst + k <= x < a.Length ==> a[x] == o[x]
      {
        assert a[src + k] == o[src + k];
        a[dst + k] := a[src + k];
        k := k + 1;
      }
    } else {
      var k := n;
      while k > 0
        invariant 0 <= k <= n
        invariant forall x :: 0 <= x < dst + k ==> a[x] == o[x]
        invariant forall x :: dst + k <= x < dst + n ==> a[x] == o[src + (x - dst)]
        invariant forall x :: dst + n <= x < a.Length ==> a[x] == o[x]
      {
        k := k - 1;
        assert a[src + k] == o[src + k];
        a[dst + k] := a[src + k];
      }
    }
    forall x | 0 <= x < a.Length
      ensures a[..][x] == MemMoved(o, dst, src, n)[x]
    {
      MemMovedAt(o, dst, src, n, x);
    }
  }

  /** Height of a stack: the number of non-zero slots from the top, at most `MaxHeight`;
      below them sits a zero unless the stack is full. */
  function Height(s: seq<uint8>): (h: nat)
    requires |s| == Slots
    ensures h <= MaxHeight
    ensures forall k :: 0 <= k < h ==> s[k] != 0
    ensures h < MaxHeight ==> s[h] == 0
  {
    HeightFrom(s, 0)
  }

  function HeightFrom(s: seq<uint8>, h0: nat): (h: nat)
    requires |s| == Slots && h0 <= MaxHeight
    requires forall k :: 0 <= k < h0 ==> s[k] != 0
    ensures h0 <= h <= MaxHeight
    ensures forall k :: 0 <= k < h ==> s[k] != 0
    ensures h < MaxHeight ==> s[h] == 0
    decreases MaxHeight - h0
  {
    if h0 < MaxHeight && s[h0] != 0 then HeightFrom(s, h0 + 1) else h0
  }

  /** The three facts in Height's contract determine the height. */
  lemma HeightUnique(s: seq<uint8>, h: nat)
    requires |s| == Slots && h <= MaxHeight
    requires forall k :: 0 <= k < h ==> s[k] != 0
    requires h < MaxHeight ==> s[h] == 0
    ensures Height(s) == h
  {
  }

  function HeightAt(b: seq<uint8>, i: int, j: int): nat
    requires |b| == BoardSize && OnBoard(i, j)
  {
    Height(StackAt(b, i, j))
  }

  /** `get_tower_height`: count slots from the top while they are non-zero, up to 8. */
  method GetTowerHeight(b: seq<uint8>, i: int, j: int) returns (h: int)
    requires |b| == BoardSize && OnBoard(i, j)
    ensures h == HeightAt(b, i, j)
  {
    ghost var s := StackAt(b, i, j);
    var base := Base(i, j);
    h := 0;
    while b[base + h] != 0 && h < MaxHeight
      invariant 0 <= h <= MaxHeight
      invariant forall k :: 0 <= k < h ==> s[k] != 0
      decreases MaxHeight - h
    {
      h := h + 1;
    }
    HeightUnique(s, h);
  }

  /** The board after `add_piece`: slots 0..6 of the cell move down one, the piece goes on
      top; slot 8 is not touched. */
  function Placed(b: seq<uint8>, i: int, j: int, piece: uint8): (r: seq<uint8>)
    requires |b| == BoardSize && OnBoard(i, j)
    ensures |r| == BoardSize
  {
    MemMoved(b, Base(i, j) + 1, Base(i, j), MaxHeight - 1)[Base(i, j) := piece]
  }

  /** `add_piece`; the int piece code is stored as a byte. */
  method AddPiece(b: array<uint8>, i: int, j: int, piece: int)
    requires b.Length == BoardSize && OnBoard(i, j)
    modifies b
    ensures b[..] == Placed(old(b[..]), i, j, piece % 256)
  {
    MemMove(b, Base(i, j) + 1, Base(i, j), MaxHeight - 1);
    b[Base(i, j)] := piece % 256;
  }

  /** Coordinate of the c-th cell along a line in `uint8_t` arithmetic, as `move_tower`
      computes `i + c * di` with a byte-typed di. */
  function DestCoord(i: int, c: int, d: uint8): uint8
  {
    (i + c * d) % 256
  }

  /** Whether step c of a tower move drops anything: the target is on the board and the
      drop is non-zero (`move_tower` skips the step otherwise). */
  predicate Lands(i: int, j: int, di: uint8, dj: uint8, c: int, drop: int)
  {
    DestCoord(i, c, di) < 4 && DestCoord(j, c, dj) < 4 && drop != 0
  }

  /** drop3 as `move_tower` computes it into a byte: source height minus the other drops. */
  function Drop3(b: seq<uint8>, i: int, j: int, d0: int, d1: int, d2: int): uint8
    requires |b| == BoardSize && OnBoard(i, j)
  {
    (HeightAt(b, i, j) - d0 - d1 - d2) % 256
  }

  /** The drops of steps 1, 2 and 3. */
  function Drops(b: seq<uint8>, i: int, j: int, d0: int, d1: uint8, d2: uint8): (r: seq<uint8>)
    requires |b| == BoardSize && OnBoard(i, j)
    ensures |r| == 3
  {
    [d1, d2, Drop3(b, i, j, d0, d1, d2)]
  }

  /** The memmoves of `move_tower` stay inside their cells: every drop that lands is at most 8. */
  predicate TowerDefined(b: seq<uint8>, i: int, j: int, di: uint8, dj: uint8, d0: int, d1: uint8, d2: uint8)
    requires |b| == BoardSize
  {
    OnBoard(i, j) && DropsFit(i, j, di, dj, Drops(b, i, j, d0, d1, d2))
  }

  predicate DropsFit(i: int, j: int, di: uint8, dj: uint8, drops: seq<uint8>)
    requires |drops| == 3
  {
    (Lands(i, j, di, dj, 1, drops[0]) ==> drops[0] <= MaxHeight) &&
    (Lands(i, j, di, dj, 2, drops[1]) ==> drops[1] <= MaxHeight) &&
    (Lands(i, j, di, dj, 3, drops[2]) ==> drops[2] <= MaxHeight)
  }

  /** The first two memmoves of a pass of `move_tower`: the nine slots at dst opened up by
      d, and the d pieces at src copied into the gap. */
  function Opened(b: seq<uint8>, dst: nat, src: nat, d: nat): (r: seq<uint8>)
    requires dst + Slots <= |b| && src + Slots <= |b| && d <= MaxHeight
    ensures |r| == |b|
  {
    MemMoved(MemMoved(b, dst + d, dst, MaxHeight - d), dst, src, d)
  }

  /** The three memmoves of one pass of `move_tower`, moving d pieces from the nine slots
      at src onto the nine slots at dst. */
  function Pass(b: seq<uint8>, dst: nat, src: nat, d: nat): (r: seq<uint8>)
    requires dst + Slots <= |b| && src + Slots <= |b| && d <= MaxHeight
    ensures |r| == |b|
  {
    MemMoved(Opened(b, dst, src, d), src, src + d, MaxHeight - d)
  }

  /** One pass of the loop in `move_tower`: make room on the target, copy the top `drop`
      bytes of the source there, then shift the source up by `drop`. */
  function TowerStep(b: seq<uint8>, i: int, j: int, di: uint8, dj: uint8, c: int, drop: uint8): (r: seq<uint8>)
    requires |b| == BoardSize && OnBoard(i, j)
    requires Lands(i, j, di, dj, c, drop) ==> drop <= MaxHeight
    ensures |r| == BoardSize
  {
    if !Lands(i, j, di, dj, c, drop) then b
    else
      var dst := Base(DestCoord(i, c, di), DestCoord(j, c, dj));
      var src := Base(i, j);
      Pass(b, dst, src, drop)
  }

  /** The first n passes of the loop in `move_tower`, with the drops fixed at entry. */
  function TowerSteps(b: seq<uint8>, i: int, j: int, di: uint8, dj: uint8, drops: seq<uint8>, n: nat): (r: seq<uint8>)
    requires |b| == BoardSize && OnBoard(i, j) && |drops| == 3 && n <= 3
    requires DropsFit(i, j, di, dj, drops)
    ensures |r| == BoardSize
  {
    if n == 0 then b
    else TowerStep(TowerSteps(b, i, j, di, dj, drops, n - 1), i, j, di, dj, n, drops[n - 1])
  }

  /** The board after `move_tower`. */
  function TowerMoved(b: seq<uint8>, i: int, j: int, di: uint8, dj: uint8, d0: int, d1: uint8, d2: uint8): (r: seq<uint8>)
    requires |b| == BoardSize && TowerDefined(b, i, j, di, dj, d0, d1, d2)
    ensures |r| == BoardSize
  {
    TowerSteps(b, i, j, di, dj, Drops(b, i, j, d0, d1, d2), 3)
  }

  /** `move_tower`, in place on the board buffer. */
  method MoveTower(b: array<uint8>, i: int, j: int, di: uint8, dj: uint8, drop0: uint8, drop1: uint8, drop2: uint8)
    requires b.Length == BoardSize && TowerDefined(b[..], i, j, di, dj, drop0, drop1, drop2)
    modifies b
    ensures b[..] == TowerMoved(old(b[..]), i, j, di, dj, drop0, drop1, drop2)
  {
    ghost var o := b[..];
    var h := GetTowerHeight(b[..], i, j);
    var drop3: uint8 := (h - drop0 - drop1 - drop2) % 256;
    var drops := [drop1, drop2, drop3];
    assert drops == Drops(o, i, j, drop0, drop1, drop2);
    assert DropsFit(i, j, di, dj, drops);
    for c := 1 to 4
      invariant b[..] == TowerSteps(o, i, j, di, dj, drops, c - 1)
    {
      TowerPass(b, i, j, di, dj, c, drops[c - 1]);
    }
  }

  /** The body of the loop in `move_tower` for pass c. */
  method TowerPass(b: array<uint8>, i: int, j: int, di: uint8, dj: uint8, c: int, drop: uint8)
    requires b.Length == BoardSize && OnBoard(i, j)
    requires Lands(i, j, di, dj, c, drop) ==> drop <= MaxHeight
    modifies b
    ensures b[..] == TowerStep(old(b[..]), i, j, di, dj, c, drop)
  {
    var iDst := DestCoord(i, c, di);
    var jDst := DestCoord(j, c, dj);
    assert Lands(i, j, di, dj, c, drop) == !(iDst >= 4 || jDst >= 4 || drop == 0);
    if !(iDst >= 4 || jDst >= 4 || drop == 0) {
      ShiftTower(b, Base(iDst, jDst), Base(i, j), drop);
    }
  }

  /** The three memmoves of one pass of `move_tower`'s loop. */
  method ShiftTower(b: array<uint8>, dst: nat, src: nat, drop: nat)
    requires dst + Slots <= b.Length && src + Slots <= b.Length && drop <= MaxHeight
    modifies b
    ensures b[..] == Pass(old(b[..]), dst, src, drop)
  {
    ghost var b0 := b[..];
    OpenTower(b, dst, src, drop);
    ghost var b1 := b[..];
    assert b1 == Opened(b0, dst, src, drop);
    MemMove(b, src, src + drop, MaxHeight - drop);
  }

  /** The first two memmoves of `ShiftTower`. */
  method OpenTower(b: array<uint8>, dst: nat, src: nat, drop: nat)
    requires dst + Slots <= b.Length && src + Slots <= b.Length && drop <= MaxHeight
    modifies b
    ensures b[..] == Opened(old(b[..]), dst, src, drop)
  {
    ghost var b0 := b[..];
    MemMove(b, dst + drop, dst, MaxHeight - drop);
    ghost var b1 := b[..];
    assert b1 == MemMoved(b0, dst + drop, dst, MaxHeight - drop);
    MemMove(b, dst, src, drop);
  }
}
