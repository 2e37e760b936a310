/** What `move_tower` (mcts/src/game.cpp:40-62) does to the stacks of a legal move: the
    carried pieces leave the source top first and land in order along the line, nothing else
    on the board changes, no piece is lost or made, and every stack stays below height 8. */
module TowerFacts {
  import opened TakTypes
  import opened Stacks
  import opened Engine
  import opened Moves
  import opened MoveFacts

  /** The pieces of a stack, top first. */
  function Pieces(b: seq<uint8>, i: int, j: int): (p: seq<uint8>)
    requires |b| == BoardSize && OnBoard(i, j)
    ensures |p| == HeightAt(b, i, j)
  {
    StackAt(b, i, j)[..HeightAt(b, i, j)]
  }

  /** The pass from cell (i, j) to cell (x, y). */
  function Shifted(b: seq<uint8>, i: int, j: int, x: int, y: int, d: int): (r: seq<uint8>)
    requires |b| == BoardSize && OnBoard(i, j) && OnBoard(x, y) && 0 <= d <= MaxHeight
    ensures |r| == BoardSize
  {
    Pass(b, Base(x, y), Base(i, j), d)
  }

  /** Distinct cells occupy disjoint slot ranges. */
  lemma Disjoint(i: int, j: int, x: int, y: int)
    requires OnBoard(i, j) && OnBoard(x, y) && (x != i || y != j)
    ensures Base(i, j) + Slots <= Base(x, y) || Base(x, y) + Slots <= Base(i, j)
  {
    assert 4 * i + j != 4 * x + y;
  }

  /** Byte q after the first two memmoves of a pass: the target opened up by d and filled
      from the source. */
  lemma OpenedAt(b: seq<uint8>, dst: nat, src: nat, d: nat, q: nat)
    requires dst + Slots <= |b| && src + Slots <= |b| && d <= MaxHeight && q < |b|
    requires dst + Slots <= src || src + Slots <= dst
    ensures Opened(b, dst, src, d)[q] ==
      if dst <= q < dst + d then b[src + (q - dst)]
      else if dst + d <= q < dst + MaxHeight then b[q - d]
      else b[q]
  {
    var b1 := MemMoved(b, dst + d, dst, MaxHeight - d);
    MemMovedAt(b1, dst, src, d, q);
    var q' := if dst <= q < dst + d then src + (q - dst) else q;
    MemMovedAt(b, dst + d, dst, MaxHeight - d, q');
  }

  /** Byte k after a pass between disjoint cells. */
  lemma PassAt(b: seq<uint8>, dst: nat, src: nat, d: nat, k: nat)
    requires dst + Slots <= |b| && src + Slots <= |b| && d <= MaxHeight && k < |b|
    requires dst + Slots <= src || src + Slots <= dst
    ensures Pass(b, dst, src, d)[k] ==
      if dst <= k < dst + d then b[src + (k - dst)]
      else if dst + d <= k < dst + MaxHeight then b[k - d]
      else if src <= k < src + MaxHeight - d then b[k + d]
      else b[k]
  {
    var b2 := Opened(b, dst, src, d);
    MemMovedAt(b2, src, src + d, MaxHeight - d, k);
    if src <= k < src + MaxHeight - d {
      assert Pass(b, dst, src, d)[k] == b2[k + d];
      OpenedAt(b, dst, src, d, k + d);
    } else {
      assert Pass(b, dst, src, d)[k] == b2[k];
      OpenedAt(b, dst, src, d, k);
    }
  }

  /** The target's slots after a pass: the top d source slots, then its own slots 0..7-d,
      then its own slot 8. */
  lemma PassTarget(b: seq<uint8>, dst: nat, src: nat, d: nat)
    requires dst + Slots <= |b| && src + Slots <= |b| && d <= MaxHeight
    requires dst + Slots <= src || src + Slots <= dst
    ensures Pass(b, dst, src, d)[dst..dst + Slots] == b[src..src + d] + b[dst..dst + MaxHeight - d] + b[dst + MaxHeight..dst + Slots]
  {
    var r, t := Pass(b, dst, src, d), b[src..src + d] + b[dst..dst + MaxHeight - d] + b[dst + MaxHeight..dst + Slots];
    forall h | 0 <= h < Slots
      ensures r[dst + h] == t[h]
    {
      PassAt(b, dst, src, d, dst + h);
    }
    assert r[dst..dst + Slots] == t;
  }

  /** The source's slots after a pass: its slots d..7 on top, then its last d slots as they
      were. */
  lemma PassSource(b: seq<uint8>, dst: nat, src: nat, d: nat)
    requires dst + Slots <= |b| && src + Slots <= |b| && d <= MaxHeight
    requires dst + Slots <= src || src + Slots <= dst
    ensures Pass(b, dst, src, d)[src..src + Slots] == b[src + d..src + MaxHeight] + b[src + MaxHeight - d..src + Slots]
  {
    var r, t := Pass(b, dst, src, d), b[src + d..src + MaxHeight] + b[src + MaxHeight - d..src + Slots];
    forall h | 0 <= h < Slots
      ensures r[src + h] == t[h]
    {
      PassAt(b, dst, src, d, src + h);
    }
    assert r[src..src + Slots] == t;
  }

  /** A pass between disjoint cells changes no byte outside them. */
  lemma PassOutside(b: seq<uint8>, dst: nat, src: nat, d: nat)
    requires dst + Slots <= |b| && src + Slots <= |b| && d <= MaxHeight
    requires dst + Slots <= src || src + Slots <= dst
    ensures var r := Pass(b, dst, src, d);
      forall k :: 0 <= k < |b| && !(dst <= k < dst + Slots) && !(src <= k < src + Slots) ==> r[k] == b[k]
  {
    forall k | 0 <= k < |b| && !(dst <= k < dst + Slots) && !(src <= k < src + Slots)
      ensures Pass(b, dst, src, d)[k] == b[k]
    {
      PassAt(b, dst, src, d, k);
    }
  }

  /** One pass on stacks: the target gets the top d source slots over its own slots 0..7-d,
      keeping slot 8; the source's slots d..7 move to the top and its last d slots are left as
      they were; every other stack is unchanged. */
  lemma ShiftedStacks(b: seq<uint8>, i: int, j: int, x: int, y: int, d: int)
    requires |b| == BoardSize && OnBoard(i, j) && OnBoard(x, y) && (x != i || y != j) && 0 <= d <= MaxHeight
    ensures var s, t, r := StackAt(b, i, j), StackAt(b, x, y), Shifted(b, i, j, x, y, d);
      StackAt(r, x, y) == s[..d] + t[..MaxHeight - d] + [t[MaxHeight]] &&
      StackAt(r, i, j) == s[d..MaxHeight] + s[MaxHeight - d..] &&
      forall u, v :: OnBoard(u, v) && (u != i || v != j) && (u != x || v != y) ==> StackAt(r, u, v) == StackAt(b, u, v)
  {
    ShiftedTarget(b, i, j, x, y, d);
    ShiftedSource(b, i, j, x, y, d);
    forall u, v | OnBoard(u, v) && (u != i || v != j) && (u != x || v != y)
      ensures StackAt(Shifted(b, i, j, x, y, d), u, v) == StackAt(b, u, v)
    {
      ShiftedElsewhere(b, i, j, x, y, d, u, v);
    }
  }

  /** The target's stack after a pass. */
  lemma ShiftedTarget(b: seq<uint8>, i: int, j: int, x: int, y: int, d: int)
    requires |b| == BoardSize && OnBoard(i, j) && OnBoard(x, y) && (x != i || y != j) && 0 <= d <= MaxHeight
    ensures var s, t := StackAt(b, i, j), StackAt(b, x, y);
      StackAt(Shifted(b, i, j, x, y, d), x, y) == s[..d] + t[..MaxHeight - d] + [t[MaxHeight]]
  {
    var dst, src := Base(x, y), Base(i, j);
    Disjoint(i, j, x, y);
    PassTarget(b, dst, src, d);
    var s, t := StackAt(b, i, j), StackAt(b, x, y);
    assert b[src..src + d] == s[..d];
    assert b[dst..dst + MaxHeight - d] == t[..MaxHeight - d];
    assert b[dst + MaxHeight..dst + Slots] == [t[MaxHeight]];
  }

  /** The source's stack after a pass. */
  lemma ShiftedSource(b: seq<uint8>, i: int, j: int, x: int, y: int, d: int)
    requires |b| == BoardSize && OnBoard(i, j) && OnBoard(x, y) && (x != i || y != j) && 0 <= d <= MaxHeight
    ensures var s := StackAt(b, i, j);
      StackAt(Shifted(b, i, j, x, y, d), i, j) == s[d..MaxHeight] + s[MaxHeight - d..]
  {
    var dst, src := Base(x, y), Base(i, j);
    Disjoint(i, j, x, y);
    PassSource(b, dst, src, d);
    var s := StackAt(b, i, j);
    assert b[src + d..src + MaxHeight] == s[d..MaxHeight];
    assert b[src + MaxHeight - d..src + Slots] == s[MaxHeight - d..];
  }

  /** A third cell's stack is the same after a pass. */
  lemma ShiftedElsewhere(b: seq<uint8>, i: int, j: int, x: int, y: int, d: int, u: int, v: int)
    requires |b| == BoardSize && OnBoard(i, j) && OnBoard(x, y) && (x != i || y != j) && 0 <= d <= MaxHeight
    requires OnBoard(u, v) && (u != i || v != j) && (u != x || v != y)
    ensures StackAt(Shifted(b, i, j, x, y, d), u, v) == StackAt(b, u, v)
  {
    var dst, src, c := Base(x, y), Base(i, j), Base(u, v);
    Disjoint(i, j, x, y);
    Disjoint(i, j, u, v);
    Disjoint(x, y, u, v);
    var r := Shifted(b, i, j, x, y, d);
    PassOutside(b, dst, src, d);
    assert forall h :: 0 <= h < Slots ==> StackAt(r, u, v)[h] == r[c + h] == b[c + h] == StackAt(b, u, v)[h];
  }

  /** A target stack after a pass: d pieces from the top of s over t. */
  lemma LandedHeight(s: seq<uint8>, t: seq<uint8>, t': seq<uint8>, d: nat)
    requires |s| == |t| == Slots && d <= Height(s) && d + Height(t) < MaxHeight
    requires t' == s[..d] + t[..MaxHeight - d] + [t[MaxHeight]]
    ensures Height(t') == d + Height(t)
    ensures t'[..Height(t')] == s[..Height(s)][..d] + t[..Height(t)]
  {
    var ht := Height(t);
    assert t'[d + ht] == t[ht] == 0;
    HeightUnique(t', d + ht);
    assert t'[..d + ht] == s[..Height(s)][..d] + t[..ht];
  }

  /** A source stack after a pass: the pieces below the top d, then stale slots from slot
      h - d, which is 0. */
  lemma LeftHeight(s: seq<uint8>, s': seq<uint8>, d: nat)
    requires |s| == Slots && d <= Height(s) < MaxHeight
    requires s' == s[d..MaxHeight] + s[MaxHeight - d..]
    ensures Height(s') == Height(s) - d
    ensures s'[..Height(s')] == s[..Height(s)][d..]
    ensures s'[Height(s')] == 0
  {
    var h := Height(s);
    assert s'[h - d] == s[h] == 0;
    HeightUnique(s', h - d);
    assert s'[..h - d] == s[..h][d..];
  }

  /** One pass on pieces: the top d pieces of a source below height 8 go, in order, on top
      of a target that stays below height 8; the source keeps the rest, the slot at its new
      height is 0, and every other stack is unchanged. */
  lemma ShiftedPieces(b: seq<uint8>, i: int, j: int, x: int, y: int, d: int)
    requires |b| == BoardSize && OnBoard(i, j) && OnBoard(x, y) && (x != i || y != j)
    requires 0 <= d <= HeightAt(b, i, j) < MaxHeight && d + HeightAt(b, x, y) < MaxHeight
    ensures var r := Shifted(b, i, j, x, y, d);
      Pieces(r, x, y) == Pieces(b, i, j)[..d] + Pieces(b, x, y) &&
      Pieces(r, i, j) == Pieces(b, i, j)[d..] &&
      StackAt(r, i, j)[HeightAt(r, i, j)] == 0 &&
      forall u, v :: OnBoard(u, v) && (u != i || v != j) && (u != x || v != y) ==> StackAt(r, u, v) == StackAt(b, u, v)
  {
    ShiftedStacks(b, i, j, x, y, d);
    var r := Shifted(b, i, j, x, y, d);
    LandedHeight(StackAt(b, i, j), StackAt(b, x, y), StackAt(r, x, y), d);
    LeftHeight(StackAt(b, i, j), StackAt(r, i, j), d);
  }

  /** Cell c along direction k from (i, j). */
  function Along(i: int, j: int, k: int, c: int): (int, int)
    requires 0 <= k < 4
  {
    (i + c * DirI[k], j + c * DirJ[k])
  }

  /** Cells at different distances along a line are different. */
  lemma LineDistinct(i: int, j: int, k: int, c: int, c': int)
    requires 0 <= k < 4 && c != c'
    ensures Along(i, j, k, c) != Along(i, j, k, c')
  {
  }

  /** Pass c of `move_tower`, for a direction the generator uses: nothing happens for a zero
      drop, and otherwise it is the pass from the source to cell c of the line. */
  lemma StepIsShift(b: seq<uint8>, i: int, j: int, k: int, c: int, drop: uint8)
    requires |b| == BoardSize && OnBoard(i, j) && 0 <= k < 4 && 1 <= c <= 3
    requires drop != 0 ==> OnBoard(Along(i, j, k, c).0, Along(i, j, k, c).1) && drop <= MaxHeight
    ensures Lands(i, j, DirI[k] % 256, DirJ[k] % 256, c, drop) ==> drop <= MaxHeight
    ensures var x, y := Along(i, j, k, c).0, Along(i, j, k, c).1;
      var r := TowerStep(b, i, j, DirI[k] % 256, DirJ[k] % 256, c, drop);
      (drop == 0 ==> r == b) && (drop != 0 ==> r == Shifted(b, i, j, x, y, drop))
  {
    var x, y := Along(i, j, k, c).0, Along(i, j, k, c).1;
    DestCoordLine(i, c, DirI[k]);
    DestCoordLine(j, c, DirJ[k]);
    if drop != 0 {
      assert DestCoord(i, c, DirI[k] % 256) == x && DestCoord(j, c, DirJ[k] % 256) == y;
    }
  }

  /** What pass c of `move_tower` did in going from bp to r, when the source held S[a..]
      (with a 0 after those pieces) and cell c of the line was as on b: the source holds
      S[a + d..] with a 0 after them, cell c got S[a..a + d] over its pieces on b, and no other
      stack changed. */
  ghost predicate PassedTo(b: seq<uint8>, bp: seq<uint8>, r: seq<uint8>, i: int, j: int, k: int, c: int,
                           S: seq<uint8>, a: nat, d: nat)
    requires |b| == |bp| == |r| == BoardSize && OnBoard(i, j) && 0 <= k < 4
    requires |S| < MaxHeight && a + d <= |S|
  {
    var x := Along(i, j, k, c);
    Pieces(r, i, j) == S[a + d..] && StackAt(r, i, j)[|S| - a - d] == 0 &&
    (d != 0 ==> OnBoard(x.0, x.1) && Pieces(r, x.0, x.1) == S[a..a + d] + Pieces(b, x.0, x.1)) &&
    forall u, v :: OnBoard(u, v) && (u != i || v != j) && (d == 0 || (u, v) != x) ==> StackAt(r, u, v) == StackAt(bp, u, v)
  }

  /** `PassedTo` with the offset a written as the sum x + y. */
  lemma PassedSum(b: seq<uint8>, bp: seq<uint8>, r: seq<uint8>, i: int, j: int, k: int, c: int,
                  S: seq<uint8>, a: nat, d: nat, x: nat, y: nat)
    requires |b| == |bp| == |r| == BoardSize && OnBoard(i, j) && 0 <= k < 4
    requires |S| < MaxHeight && a + d <= |S| && a == x + y
    requires PassedTo(b, bp, r, i, j, k, c, S, a, d)
    ensures PassedTo(b, bp, r, i, j, k, c, S, x + y, d)
  {
    assert S[a + d..] == S[x + y + d..];
    assert S[a..a + d] == S[x + y..x + y + d];
    assert |S| - a - d == |S| - (x + y) - d;
  }

  /** A pass that drops d > 0 pieces on an untouched cell c. */
  lemma ShiftPassed(b: seq<uint8>, bp: seq<uint8>, i: int, j: int, k: int, c: int, S: seq<uint8>, a: nat, d: nat)
    requires |b| == |bp| == BoardSize && OnBoard(i, j) && 0 <= k < 4 && 1 <= c <= 3
    requires |S| < MaxHeight && 0 < d && a + d <= |S|
    requires Pieces(bp, i, j) == S[a..] && StackAt(bp, i, j)[|S| - a] == 0
    requires var x := Along(i, j, k, c);
      OnBoard(x.0, x.1) && StackAt(bp, x.0, x.1) == StackAt(b, x.0, x.1) && d + HeightAt(b, x.0, x.1) < MaxHeight
    ensures var x := Along(i, j, k, c);
      PassedTo(b, bp, Shifted(bp, i, j, x.0, x.1, d), i, j, k, c, S, a, d)
  {
    var x := Along(i, j, k, c);
    LineDistinct(i, j, k, 0, c);
    assert HeightAt(bp, i, j) == |S| - a;
    ShiftedPieces(bp, i, j, x.0, x.1, d);
    assert S[a..][..d] == S[a..a + d] && S[a..][d..] == S[a + d..];
  }

  /** Three passes from a source below height 8 whose pieces S split as d0 + d1 + d2 + d3,
      each into a cell of the line not touched before. */
  lemma ThreePasses(b: seq<uint8>, b1: seq<uint8>, b2: seq<uint8>, r: seq<uint8>, i: int, j: int, k: int,
                    S: seq<uint8>, d0: nat, d1: nat, d2: nat, d3: nat)
    requires |b| == |b1| == |b2| == |r| == BoardSize && OnBoard(i, j) && 0 <= k < 4
    requires S == Pieces(b, i, j) && |S| < MaxHeight && d0 + d1 + d2 + d3 == |S|
    requires PassedTo(b, b, b1, i, j, k, 1, S, 0, d1) && d1 > 0
    requires PassedTo(b, b1, b2, i, j, k, 2, S, d1, d2)
    requires PassedTo(b, b2, r, i, j, k, 3, S, d1 + d2, d3)
    ensures TowerEffect(b, r, i, j, k, d0, d1, d2, d3)
  {
    ThreeLanded(b, b1, b2, r, i, j, k, S, d1, d2, d3);
    ThreeKept(b, b1, b2, r, i, j, k, S, d1, d2, d3);
  }

  /** A cell of the line keeps what it received through the later passes. */
  lemma ThreeLanded(b: seq<uint8>, b1: seq<uint8>, b2: seq<uint8>, r: seq<uint8>, i: int, j: int, k: int,
                    S: seq<uint8>, d1: nat, d2: nat, d3: nat)
    requires |b| == |b1| == |b2| == |r| == BoardSize && OnBoard(i, j) && 0 <= k < 4
    requires |S| < MaxHeight && d1 + d2 + d3 <= |S|
    requires PassedTo(b, b, b1, i, j, k, 1, S, 0, d1) && d1 > 0
    requires PassedTo(b, b1, b2, i, j, k, 2, S, d1, d2)
    requires PassedTo(b, b2, r, i, j, k, 3, S, d1 + d2, d3)
    ensures var c1, c2 := Along(i, j, k, 1), Along(i, j, k, 2);
      Pieces(r, c1.0, c1.1) == S[..d1] + Pieces(b, c1.0, c1.1) &&
      (d2 > 0 ==> Pieces(r, c2.0, c2.1) == S[d1..d1 + d2] + Pieces(b, c2.0, c2.1))
  {
    var c1, c2 := Along(i, j, k, 1), Along(i, j, k, 2);
    LineDistinct(i, j, k, 1, 2);
    LineDistinct(i, j, k, 1, 3);
    LineDistinct(i, j, k, 2, 3);
    assert StackAt(r, c1.0, c1.1) == StackAt(b1, c1.0, c1.1);
    if d2 > 0 {
      assert StackAt(r, c2.0, c2.1) == StackAt(b2, c2.0, c2.1);
    }
  }

  /** The cells off the line and off the source keep their stacks through the three passes. */
  lemma ThreeKept(b: seq<uint8>, b1: seq<uint8>, b2: seq<uint8>, r: seq<uint8>, i: int, j: int, k: int,
                  S: seq<uint8>, d1: nat, d2: nat, d3: nat)
    requires |b| == |b1| == |b2| == |r| == BoardSize && OnBoard(i, j) && 0 <= k < 4
    requires |S| < MaxHeight && d1 + d2 + d3 <= |S|
    requires PassedTo(b, b, b1, i, j, k, 1, S, 0, d1) && d1 > 0
    requires PassedTo(b, b1, b2, i, j, k, 2, S, d1, d2)
    requires PassedTo(b, b2, r, i, j, k, 3, S, d1 + d2, d3)
    ensures var c1, c2, c3 := Along(i, j, k, 1), Along(i, j, k, 2), Along(i, j, k, 3);
      forall u, v :: (OnBoard(u, v) && (u != i || v != j) && (u, v) != c1 &&
        (d2 == 0 || (u, v) != c2) && (d3 == 0 || (u, v) != c3)) ==> StackAt(r, u, v) == StackAt(b, u, v)
  {
  }

  /** What `move_tower` does to the stacks for a source (i, j) of pieces S, |S| = d0 + d1 +
      d2 + d3, moving along direction k: cell 1 of the line gets S[..d1] on top, cell 2 the
      next d2 and cell 3 the last d3, each in order and over its old pieces; the source keeps
      its bottom d0 pieces with a 0 in the slot after them; no other stack changes. */
  ghost predicate TowerEffect(b: seq<uint8>, r: seq<uint8>, i: int, j: int, k: int, d0: nat, d1: nat, d2: nat, d3: nat)
    requires |b| == |r| == BoardSize && OnBoard(i, j) && 0 <= k < 4
    requires d0 + d1 + d2 + d3 == HeightAt(b, i, j) < MaxHeight
  {
    var S := Pieces(b, i, j);
    var c1, c2, c3 := Along(i, j, k, 1), Along(i, j, k, 2), Along(i, j, k, 3);
    OnBoard(c1.0, c1.1) && (d2 > 0 ==> OnBoard(c2.0, c2.1)) && (d3 > 0 ==> OnBoard(c3.0, c3.1)) &&
    Pieces(r, i, j) == S[d1 + d2 + d3..] && StackAt(r, i, j)[d0] == 0 &&
    Pieces(r, c1.0, c1.1) == S[..d1] + Pieces(b, c1.0, c1.1) &&
    (d2 > 0 ==> Pieces(r, c2.0, c2.1) == S[d1..d1 + d2] + Pieces(b, c2.0, c2.1)) &&
    (d3 > 0 ==> Pieces(r, c3.0, c3.1) == S[d1 + d2..d1 + d2 + d3] + Pieces(b, c3.0, c3.1)) &&
    forall u, v :: (OnBoard(u, v) && (u != i || v != j) && (u, v) != c1 &&
      (d2 == 0 || (u, v) != c2) && (d3 == 0 || (u, v) != c3)) ==> StackAt(r, u, v) == StackAt(b, u, v)
  }

  /** `apply_move` on a generated stack move has the tower effect, with drop3 the pieces
      the other drops leave over; in particular the source ends at height drop0. */
  lemma TowerPieces(g: Game, m: Move)
    requires IsLegal(g, m) && m.kind == MOVE
    ensures MoveDefined(g, m)
    ensures var b, i, j, k := g.board, m.i as int, m.j as int, DirIndex(m.di, m.dj);
      var h := HeightAt(b, i, j);
      k < 4 && h < MaxHeight && m.drop0 + m.drop1 + m.drop2 <= h &&
      TowerEffect(b, Apply(g, m).board, i, j, k, m.drop0 as nat, m.drop1 as nat, m.drop2 as nat, h - m.drop0 - m.drop1 - m.drop2) &&
      HeightAt(Apply(g, m).board, i, j) == m.drop0
  {
    LegalIsDefined(g, m);
    var b, i, j := g.board, m.i as int, m.j as int;
    var k := DirIndex(m.di, m.dj);
    var d3 := LegalShape(g, m);
    var r := TowerStepsPieces(b, i, j, k, m.drop0 as nat, m.drop1, m.drop2, d3);
    assert Apply(g, m).board == r;
    var h := HeightAt(b, i, j);
    EffectOfDrops(b, r, i, j, k, m.drop0 as nat, m.drop1 as nat, m.drop2 as nat, d3 as nat, h - m.drop0 - m.drop1 - m.drop2);
    assert |Pieces(r, i, j)| == m.drop0;
  }

  /** `TowerEffect` with the last drop written another way. */
  lemma EffectOfDrops(b: seq<uint8>, r: seq<uint8>, i: int, j: int, k: int, d0: nat, d1: nat, d2: nat, d3: nat, e3: int)
    requires |b| == |r| == BoardSize && OnBoard(i, j) && 0 <= k < 4
    requires d0 + d1 + d2 + d3 == HeightAt(b, i, j) < MaxHeight
    requires TowerEffect(b, r, i, j, k, d0, d1, d2, d3) && e3 == d3
    ensures e3 >= 0 && TowerEffect(b, r, i, j, k, d0, d1, d2, e3)
  {
  }

  /** A legal stack move in the terms of `TowerStepsPieces`. */
  lemma LegalShape(g: Game, m: Move) returns (d3: uint8)
    requires IsLegal(g, m) && m.kind == MOVE
    ensures var b, i, j, k := g.board, m.i as int, m.j as int, DirIndex(m.di, m.dj);
      var c1, c2, c3 := Along(i, j, k, 1), Along(i, j, k, 2), Along(i, j, k, 3);
      OnBoard(i, j) && k < 4 && m.di % 256 == DirI[k] % 256 && m.dj % 256 == DirJ[k] % 256 &&
      d3 as int == HeightAt(b, i, j) - m.drop0 - m.drop1 - m.drop2 &&
      Drops(b, i, j, m.drop0, m.drop1, m.drop2) == [m.drop1, m.drop2, d3] &&
      HeightAt(b, i, j) < MaxHeight && m.drop1 > 0 &&
      OnBoard(c1.0, c1.1) && m.drop1 + HeightAt(b, c1.0, c1.1) < MaxHeight &&
      (m.drop2 > 0 ==> OnBoard(c2.0, c2.1) && m.drop2 + HeightAt(b, c2.0, c2.1) < MaxHeight) &&
      (d3 > 0 ==> OnBoard(c3.0, c3.1) && d3 + HeightAt(b, c3.0, c3.1) < MaxHeight)
  {
    LegalStackMove(g, m);
    var b, i, j, k := g.board, m.i as int, m.j as int, DirIndex(m.di, m.dj);
    var x := HeightAt(b, i, j) - m.drop0 - m.drop1 - m.drop2;
    ByteValue(x);
    d3 := x as uint8;
    FitsAlong(b, i, j, k, 1, m.drop1 as int);
    FitsAlong(b, i, j, k, 2, m.drop2 as int);
    FitsAlong(b, i, j, k, 3, x);
  }

  /** `Fits` in terms of `Along`. */
  lemma FitsAlong(b: seq<uint8>, i: int, j: int, k: int, c: int, d: int)
    requires |b| == BoardSize && 0 <= k < 4
    ensures var x := Along(i, j, k, c);
      Fits(b, i, j, k, c, d) <==> OnBoard(x.0, x.1) && d + HeightAt(b, x.0, x.1) < MaxHeight
  {
  }

  /** The three passes of `move_tower` for a line direction k, from a source below height 8
      whose pieces S split as d0 + d1 + d2 + d3 with d1 > 0, each landing on a cell that stays
      below height 8. */
  lemma TowerStepsPieces(b: seq<uint8>, i: int, j: int, k: int, d0: nat, d1: uint8, d2: uint8, d3: uint8)
    returns (r: seq<uint8>)
    requires |b| == BoardSize && OnBoard(i, j) && 0 <= k < 4
    requires HeightAt(b, i, j) < MaxHeight && d0 + d1 + d2 + d3 == HeightAt(b, i, j) && d1 > 0
    requires var c1 := Along(i, j, k, 1);
      OnBoard(c1.0, c1.1) && d1 + HeightAt(b, c1.0, c1.1) < MaxHeight
    requires var c2 := Along(i, j, k, 2);
      d2 > 0 ==> OnBoard(c2.0, c2.1) && d2 + HeightAt(b, c2.0, c2.1) < MaxHeight
    requires var c3 := Along(i, j, k, 3);
      d3 > 0 ==> OnBoard(c3.0, c3.1) && d3 + HeightAt(b, c3.0, c3.1) < MaxHeight
    ensures DropsFit(i, j, DirI[k] % 256, DirJ[k] % 256, [d1, d2, d3])
    ensures |r| == BoardSize && r == TowerSteps(b, i, j, DirI[k] % 256, DirJ[k] % 256, [d1, d2, d3], 3)
    ensures TowerEffect(b, r, i, j, k, d0, d1 as nat, d2 as nat, d3 as nat)
  {
    var S := Pieces(b, i, j);
    var b1, b2;
    b1, b2, r := ShiftedChain(b, i, j, k, S, d1, d2, d3);
    ThreePasses(b, b1, b2, r, i, j, k, S, d0, d1 as nat, d2 as nat, d3 as nat);
    StepsChain(b, b1, b2, r, i, j, k, d1, d2, d3);
  }

  /** The boards after each pass, built from `Shifted`, with what each pass did. */
  lemma ShiftedChain(b: seq<uint8>, i: int, j: int, k: int, S: seq<uint8>, d1: uint8, d2: uint8, d3: uint8)
    returns (b1: seq<uint8>, b2: seq<uint8>, r: seq<uint8>)
    requires |b| == BoardSize && OnBoard(i, j) && 0 <= k < 4
    requires S == Pieces(b, i, j) && |S| < MaxHeight && d1 + d2 + d3 <= |S| && d1 > 0
    requires var c1 := Along(i, j, k, 1);
      OnBoard(c1.0, c1.1) && d1 + HeightAt(b, c1.0, c1.1) < MaxHeight
    requires var c2 := Along(i, j, k, 2);
      d2 > 0 ==> OnBoard(c2.0, c2.1) && d2 + HeightAt(b, c2.0, c2.1) < MaxHeight
    requires var c3 := Along(i, j, k, 3);
      d3 > 0 ==> OnBoard(c3.0, c3.1) && d3 + HeightAt(b, c3.0, c3.1) < MaxHeight
    ensures |b1| == |b2| == |r| == BoardSize
    ensures var c1, c2, c3 := Along(i, j, k, 1), Along(i, j, k, 2), Along(i, j, k, 3);
      b1 == Shifted(b, i, j, c1.0, c1.1, d1 as int) &&
      b2 == (if d2 == 0 then b1 else Shifted(b1, i, j, c2.0, c2.1, d2 as int)) &&
      r == (if d3 == 0 then b2 else Shifted(b2, i, j, c3.0, c3.1, d3 as int))
    ensures PassedTo(b, b, b1, i, j, k, 1, S, 0, d1 as nat)
    ensures PassedTo(b, b1, b2, i, j, k, 2, S, d1 as nat, d2 as nat)
    ensures PassedTo(b, b2, r, i, j, k, 3, S, d1 as nat + d2 as nat, d3 as nat)
  {
    b1, b2 := FirstTwoPasses(b, i, j, k, S, d1, d2, d3);
    r := ThirdPass(b, b2, i, j, k, S, d1, d2, d3);
  }

  /** The third pass of `ShiftedChain`, after the first two dropped d1 + d2 pieces. */
  lemma ThirdPass(b: seq<uint8>, b2: seq<uint8>, i: int, j: int, k: int, S: seq<uint8>, d1: uint8, d2: uint8, d3: uint8)
    returns (r: seq<uint8>)
    requires |b| == |b2| == BoardSize && OnBoard(i, j) && 0 <= k < 4
    requires |S| < MaxHeight && d1 + d2 + d3 <= |S|
    requires var c3 := Along(i, j, k, 3);
      d3 > 0 ==> OnBoard(c3.0, c3.1) && d3 + HeightAt(b, c3.0, c3.1) < MaxHeight
    requires var c3 := Along(i, j, k, 3);
      Pieces(b2, i, j) == S[(d1 + d2) as nat..] && StackAt(b2, i, j)[|S| - (d1 + d2) as nat] == 0 &&
      (d3 > 0 && OnBoard(c3.0, c3.1) ==> StackAt(b2, c3.0, c3.1) == StackAt(b, c3.0, c3.1))
    ensures |r| == BoardSize
    ensures var c3 := Along(i, j, k, 3);
      r == (if d3 == 0 then b2 else Shifted(b2, i, j, c3.0, c3.1, d3 as int))
    ensures PassedTo(b, b2, r, i, j, k, 3, S, d1 as nat + d2 as nat, d3 as nat)
  {
    var a: nat := d1 as nat + d2 as nat;
    r := LaterPass(b, b2, i, j, k, 3, S, a, d3 as nat);
    PassedSum(b, b2, r, i, j, k, 3, S, a, d3 as nat, d1 as nat, d2 as nat);
  }

  /** The first two passes of `ShiftedChain`, and what they leave for the third. */
  lemma FirstTwoPasses(b: seq<uint8>, i: int, j: int, k: int, S: seq<uint8>, d1: uint8, d2: uint8, d3: uint8)
    returns (b1: seq<uint8>, b2: seq<uint8>)
    requires |b| == BoardSize && OnBoard(i, j) && 0 <= k < 4
    requires S == Pieces(b, i, j) && |S| < MaxHeight && d1 + d2 + d3 <= |S| && d1 > 0
    requires var c1 := Along(i, j, k, 1);
      OnBoard(c1.0, c1.1) && d1 + HeightAt(b, c1.0, c1.1) < MaxHeight
    requires var c2 := Along(i, j, k, 2);
      d2 > 0 ==> OnBoard(c2.0, c2.1) && d2 + HeightAt(b, c2.0, c2.1) < MaxHeight
    ensures |b1| == |b2| == BoardSize
    ensures var c1, c2 := Along(i, j, k, 1), Along(i, j, k, 2);
      b1 == Shifted(b, i, j, c1.0, c1.1, d1 as int) &&
      b2 == (if d2 == 0 then b1 else Shifted(b1, i, j, c2.0, c2.1, d2 as int))
    ensures PassedTo(b, b, b1, i, j, k, 1, S, 0, d1 as nat)
    ensures PassedTo(b, b1, b2, i, j, k, 2, S, d1 as nat, d2 as nat)
    ensures var c3 := Along(i, j, k, 3);
      Pieces(b2, i, j) == S[(d1 + d2) as nat..] && StackAt(b2, i, j)[|S| - (d1 + d2) as nat] == 0 &&
      (d3 > 0 && OnBoard(c3.0, c3.1) ==> StackAt(b2, c3.0, c3.1) == StackAt(b, c3.0, c3.1))
  {
    var c1 := Along(i, j, k, 1);
    b1 := Shifted(b, i, j, c1.0, c1.1, d1 as int);
    ShiftPassed(b, b, i, j, k, 1, S, 0, d1 as nat);
    Untouched(b, b, b1, i, j, k, 1, 2, S, 0, d1 as nat, d2 as nat);
    b2 := LaterPass(b, b1, i, j, k, 2, S, d1 as nat, d2 as nat);
    Untouched(b, b, b1, i, j, k, 1, 3, S, 0, d1 as nat, d3 as nat);
    Untouched(b, b1, b2, i, j, k, 2, 3, S, d1 as nat, d2 as nat, d3 as nat);
  }

  /** After pass c the source holds S[a + d..] with a 0 after them, and a later cell c' of
      the line still has the stack it had before the pass. */
  lemma Untouched(b: seq<uint8>, bp: seq<uint8>, r: seq<uint8>, i: int, j: int, k: int, c: int, c': int,
                  S: seq<uint8>, a: nat, d: nat, d': nat)
    requires |b| == |bp| == |r| == BoardSize && OnBoard(i, j) && 0 <= k < 4 && 1 <= c < c' <= 3
    requires |S| < MaxHeight && a + d <= |S|
    requires PassedTo(b, bp, r, i, j, k, c, S, a, d)
    ensures Pieces(r, i, j) == S[a + d..] && StackAt(r, i, j)[|S| - (a + d)] == 0
    ensures var x := Along(i, j, k, c');
      d' > 0 && OnBoard(x.0, x.1) ==> StackAt(r, x.0, x.1) == StackAt(bp, x.0, x.1)
  {
    LineDistinct(i, j, k, 0, c');
    LineDistinct(i, j, k, c, c');
  }

  /** Pass 2 or 3, which drops nothing when d is 0. */
  lemma LaterPass(b: seq<uint8>, bp: seq<uint8>, i: int, j: int, k: int, c: int, S: seq<uint8>, a: nat, d: nat)
    returns (r: seq<uint8>)
    requires |b| == |bp| == BoardSize && OnBoard(i, j) && 0 <= k < 4 && 1 <= c <= 3
    requires |S| < MaxHeight && a + d <= |S|
    requires Pieces(bp, i, j) == S[a..] && StackAt(bp, i, j)[|S| - a] == 0
    requires var x := Along(i, j, k, c);
      d > 0 ==> OnBoard(x.0, x.1) && StackAt(bp, x.0, x.1) == StackAt(b, x.0, x.1) && d + HeightAt(b, x.0, x.1) < MaxHeight
    ensures |r| == BoardSize
    ensures var x := Along(i, j, k, c);
      r == (if d == 0 then bp else Shifted(bp, i, j, x.0, x.1, d))
    ensures PassedTo(b, bp, r, i, j, k, c, S, a, d)
  {
    var x := Along(i, j, k, c);
    r := bp;
    if d > 0 {
      r := Shifted(bp, i, j, x.0, x.1, d);
      ShiftPassed(b, bp, i, j, k, c, S, a, d);
    }
  }

  /** The passes of `move_tower` are the shifts of `ShiftedChain`. */
  lemma StepsChain(b: seq<uint8>, b1: seq<uint8>, b2: seq<uint8>, r: seq<uint8>, i: int, j: int, k: int, d1: uint8, d2: uint8, d3: uint8)
    requires |b| == BoardSize && OnBoard(i, j) && 0 <= k < 4
    requires var c1, c2, c3 := Along(i, j, k, 1), Along(i, j, k, 2), Along(i, j, k, 3);
      OnBoard(c1.0, c1.1) && d1 > 0 && (d2 > 0 ==> OnBoard(c2.0, c2.1)) && (d3 > 0 ==> OnBoard(c3.0, c3.1)) &&
      d1 <= MaxHeight && d2 <= MaxHeight && d3 <= MaxHeight &&
      b1 == Shifted(b, i, j, c1.0, c1.1, d1 as int) &&
      b2 == (if d2 == 0 then b1 else Shifted(b1, i, j, c2.0, c2.1, d2 as int)) &&
      r == (if d3 == 0 then b2 else Shifted(b2, i, j, c3.0, c3.1, d3 as int))
    ensures DropsFit(i, j, DirI[k] % 256, DirJ[k] % 256, [d1, d2, d3])
    ensures TowerSteps(b, i, j, DirI[k] % 256, DirJ[k] % 256, [d1, d2, d3], 3) == r
  {
    var di, dj, drops := DirI[k] % 256, DirJ[k] % 256, [d1, d2, d3];
    StepIsShift(b, i, j, k, 1, d1);
    StepIsShift(b1, i, j, k, 2, d2);
    StepIsShift(b2, i, j, k, 3, d3);
    assert TowerSteps(b, i, j, di, dj, drops, 1) == b1;
    assert TowerSteps(b, i, j, di, dj, drops, 2) == b2;
  }
}
