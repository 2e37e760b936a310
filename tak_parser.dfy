/** The move-text parser `parse_move` of the terminal front end (mcts/tui.cpp:12-110), on
    the tokens it reads: a move-type letter, a file letter, a rank digit and, for a stack
    move, a word holding a direction letter and up to three drop digits. */
module Parser {
  import opened TakTypes
  import opened Stacks
  import opened Engine
  import opened Moves
  import opened MoveFacts

  /** A C `char` as `std::cin` reads it: a signed byte. */
  type CChar = int8

  function Min(a: int, b: int): int
  {
    if a < b then a else b
  }

  /** The move-type letter: f, w and m; h (which prints the help text) and anything else
      is rejected. */
  function KindOf(c: CChar): Option<MoveKind>
  {
    if c == 'f' as int then Some(FLAT)
    else if c == 'w' as int then Some(WALL)
    else if c == 'm' as int then Some(MOVE)
    else None
  }

  /** The direction letter as (di, dj): w and s move along j, a and d along i. */
  function DirOf(c: CChar): Option<(int8, int8)>
  {
    if c == 'w' as int then Some((0, -1))
    else if c == 's' as int then Some((0, 1))
    else if c == 'a' as int then Some((-1, 0))
    else if c == 'd' as int then Some((1, 0))
    else None
  }

  /** Drop digit n of the word (the characters after the direction letter), 0 past its end. */
  function Digit(s: seq<CChar>, n: nat): int
  {
    if n + 1 >= |s| then 0 else s[n + 1] - '0' as int
  }

  function Sum(s: seq<int>): int
  {
    if |s| == 0 then 0 else Sum(s[..|s| - 1]) + s[|s| - 1]
  }

  /** The first n entries of `drops` for a source of height h: drop digit c, raised to at
      least 1 for c > 0, then clamped to what the running total leaves of h. */
  function ParsedDrops(s: seq<CChar>, h: int, n: nat): (ds: seq<int>)
    requires n <= 3
    ensures |ds| == n
  {
    if n == 0 then []
    else
      var prev := ParsedDrops(s, h, n - 1);
      var d := if n - 1 > 0 then Max(Digit(s, n - 1), 1) else Digit(s, n - 1);
      prev + [Min(d, h - Sum(prev))]
  }

  /** The move `parse_move` has written into its `move_t` argument when it reaches the legality
      scan, or None where it returns false before that. The drops are `int`s stored into
      `uint8_t` fields. */
  function Written(t: CChar, fc: CChar, rc: CChar, s: seq<CChar>, g: Game): Option<Move>
  {
    match KindOf(t)
    case None => None
    case Some(kind) =>
      var i, j := fc - 'a' as int, rc - '1' as int;
      if !OnBoard(i, j) then None
      else if kind != MOVE then Some(Move(kind, i, j, 0, 0, 0, 0, 0))
      else if |s| == 0 then None
      else match DirOf(s[0])
        case None => None
        case Some(dir) =>
          var ds := ParsedDrops(s, HeightAt(g.board, i, j), 3);
          Some(Move(MOVE, i, j, dir.0, dir.1, ds[0] % 256, ds[1] % 256, ds[2] % 256))
  }

  /** `parse_move`: the written move, when `move_eq` matches it with a move of
      `available_moves`. */
  function Parse(t: CChar, fc: CChar, rc: CChar, s: seq<CChar>, g: Game): Option<Move>
  {
    match Written(t, fc, rc, s, g)
    case None => None
    case Some(m) => if exists x :: x in LegalMoves(g) && MoveEq(x, m) then Some(m) else None
  }

  /** `parse_move`: the move written into the `move_t` argument, then the scan of
      `available_moves` for a move `move_eq` to it. */
  method ParseMove(t: CChar, fc: CChar, rc: CChar, s: seq<CChar>, g: Game) returns (r: Option<Move>)
    ensures r == Parse(t, fc, rc, s, g)
  {
    var w := WriteMove(t, fc, rc, s, g);
    if w.None? {
      return None;
    }
    var moves := AvailableMoves(g);
    var found := MatchAny(moves, w.value);
    r := if found then w else None;
  }

  /** The part of `parse_move` that reads the tokens into the move, with the drops loop
      and its running total. */
  method WriteMove(t: CChar, fc: CChar, rc: CChar, s: seq<CChar>, g: Game) returns (r: Option<Move>)
    ensures r == Written(t, fc, rc, s, g)
  {
    var kind: MoveKind;
    if t == 'f' as int {
      kind := FLAT;
    } else if t == 'w' as int {
      kind := WALL;
    } else if t == 'm' as int {
      kind := MOVE;
    } else {
      return None;
    }
    var i, j := fc - 'a' as int, rc - '1' as int;
    if !(0 <= i < 4 && 0 <= j < 4) {
      return None;
    }
    var move := Move(kind, i, j, 0, 0, 0, 0, 0);
    if kind == MOVE {
      if |s| == 0 {
        return None;
      }
      var dir := ReadDir(s[0]);
      if dir.None? {
        return None;
      }
      move := move.(di := dir.value.0, dj := dir.value.1);
      var h := GetTowerHeight(g.board, i, j);
      var drops := ReadDrops(s, h);
      move := move.(drop0 := drops[0] % 256, drop1 := drops[1] % 256, drop2 := drops[2] % 256);
    }
    r := Some(move);
  }

  /** The direction letter test of `parse_move`. */
  method ReadDir(c: CChar) returns (dir: Option<(int8, int8)>)
    ensures dir == DirOf(c)
  {
    if c == 'w' as int {
      dir := Some((0, -1));
    } else if c == 's' as int {
      dir := Some((0, 1));
    } else if c == 'a' as int {
      dir := Some((-1, 0));
    } else if c == 'd' as int {
      dir := Some((1, 0));
    } else {
      dir := None;
    }
  }

  /** The drops loop of `parse_move`. */
  method ReadDrops(s: seq<CChar>, h: int) returns (drops: seq<int>)
    ensures drops == ParsedDrops(s, h, 3)
  {
    drops := [];
    var tot := 0;
    for n := 0 to 3
      invariant drops == ParsedDrops(s, h, n) && tot == Sum(drops)
    {
      var d;
      if n + 1 >= |s| {
        d := 0;
      } else {
        d := s[n + 1] - '0' as int;
      }
      if n > 0 {
        d := Max(d, 1);
      }
      drops := drops + [Min(d, h - tot)];
      assert drops[..n] == ParsedDrops(s, h, n);
      tot := tot + drops[n];
    }
  }

  /** The final loop of `parse_move`: does some move of the list match `move_eq`? */
  method MatchAny(moves: seq<Move>, move: Move) returns (found: bool)
    ensures found <==> exists x :: x in moves && MoveEq(x, move)
  {
    for n := 0 to |moves|
      invariant forall x :: x in moves[..n] ==> !MoveEq(x, move)
    {
      if MoveEq(moves[n], move) {
        return true;
      }
      assert moves[..n + 1] == moves[..n] + [moves[n]];
    }
    assert moves[..|moves|] == moves;
    return false;
  }

  /** The drops never sum past h, whatever the word holds. */
  lemma {:induction false} DropsWithinHeight(s: seq<CChar>, h: int, n: nat)
    requires 0 <= h && n <= 3
    ensures Sum(ParsedDrops(s, h, n)) <= h
  {
    if n > 0 {
      DropsWithinHeight(s, h, n - 1);
      var ds, prev := ParsedDrops(s, h, n), ParsedDrops(s, h, n - 1);
      assert ds[..n - 1] == prev;
      assert ds[n - 1] <= h - Sum(prev);
      assert Sum(ds) == Sum(prev) + ds[n - 1];
    }
  }

  /** The three drops a word yields: each is clamped to what the others leave of h, the
      last two are at least 1 unless nothing is left, and for digit characters none is
      negative. */
  lemma ThreeDrops(s: seq<CChar>, h: int)
    requires 0 <= h
    ensures var ds := ParsedDrops(s, h, 3);
      ds[0] + ds[1] + ds[2] <= h &&
      ds[0] == Min(Digit(s, 0), h) &&
      ds[1] == Min(Max(Digit(s, 1), 1), h - ds[0]) &&
      ds[2] == Min(Max(Digit(s, 2), 1), h - ds[0] - ds[1]) &&
      (ds[0] + ds[1] < h ==> ds[2] >= 1) &&
      (ds[0] < h ==> ds[1] >= 1) &&
      ((forall n :: 1 <= n < |s| ==> '0' as int <= s[n] <= '9' as int) ==> ds[0] >= 0 && ds[1] >= 0 && ds[2] >= 0)
  {
    DropsSpelledOut(s, h);
    DropsWithinHeight(s, h, 3);
    var ds := ParsedDrops(s, h, 3);
    if forall n :: 1 <= n < |s| ==> '0' as int <= s[n] <= '9' as int {
      assert 0 <= Digit(s, 0);
    }
  }

  /** The three drops, each in terms of the ones before it. */
  lemma DropsSpelledOut(s: seq<CChar>, h: int)
    ensures var ds := ParsedDrops(s, h, 3);
      ds[0] == Min(Digit(s, 0), h) &&
      ds[1] == Min(Max(Digit(s, 1), 1), h - ds[0]) &&
      ds[2] == Min(Max(Digit(s, 2), 1), h - ds[0] - ds[1])
  {
    var ds := ParsedDrops(s, h, 3);
    assert ParsedDrops(s, h, 0) == [] && Sum([]) == 0;
    assert ParsedDrops(s, h, 1) == [ds[0]] && Sum([ds[0]]) == ds[0];
    assert ParsedDrops(s, h, 2) == [ds[0], ds[1]] && [ds[0], ds[1]][..1] == [ds[0]];
  }

  /** `parse_move` accepts no other moves than those `available_moves` offers, and it accepts
      the written move exactly when that move is one of them: for a placement `move_eq`
      ignores the zeroed fields, which the offered placements also hold. */
  lemma ParseMeansLegal(t: CChar, fc: CChar, rc: CChar, s: seq<CChar>, g: Game)
    ensures var w := Written(t, fc, rc, s, g);
      Parse(t, fc, rc, s, g) == if w.Some? && w.value in LegalMoves(g) then w else None
    ensures Parse(t, fc, rc, s, g).Some? ==> IsLegal(g, Parse(t, fc, rc, s, g).value)
  {
    var w := Written(t, fc, rc, s, g);
    if w.Some? {
      var m := w.value;
      MoveEqEquivalence(m, m, m);
      if x :| x in LegalMoves(g) && MoveEq(x, m) {
        LegalMovesMember(g, x);
        MoveEqMeaning(x, m);
        assert x == m;
      }
      LegalMovesMember(g, m);
    }
  }

  /** A parsed stack move whose second drop is 0 has put all the pieces down already: the
      generator's moves with drop2 = 0 and a non-zero third drop cannot be typed. */
  lemma NoGapAfterSecondDrop(t: CChar, fc: CChar, rc: CChar, s: seq<CChar>, g: Game)
    requires Parse(t, fc, rc, s, g).Some?
    ensures var m := Parse(t, fc, rc, s, g).value;
      m.kind == MOVE && m.drop2 == 0 ==> m.drop0 + m.drop1 == HeightAt(g.board, m.i, m.j)
  {
    ParseMeansLegal(t, fc, rc, s, g);
    var m := Parse(t, fc, rc, s, g).value;
    if m.kind == MOVE {
      var h := WrittenStack(t, fc, rc, s, g);
      LegalDrops(g, m);
      StoredDrops(s, h);
    }
  }

  /** Stored into bytes, drops of a source of height h at most 8 whose first one is below h
      are the drops themselves; then a zero second drop means the first two took all h. */
  lemma StoredDrops(s: seq<CChar>, h: int)
    requires 0 <= h <= MaxHeight
    ensures var ds := ParsedDrops(s, h, 3);
      ds[0] % 256 < h ==>
        ds[0] % 256 == ds[0] && ds[1] % 256 == ds[1] && ds[2] % 256 == ds[2] &&
        (ds[2] == 0 ==> ds[0] + ds[1] == h)
  {
    ThreeDrops(s, h);
    var ds := ParsedDrops(s, h, 3);
    assert Digit(s, 0) >= -176;
    if ds[0] % 256 < h {
      ByteValue(ds[0]);
      ByteValue(ds[1]);
      ByteValue(ds[2]);
    }
  }

  /** The fields of a written stack move. */
  lemma WrittenStack(t: CChar, fc: CChar, rc: CChar, s: seq<CChar>, g: Game) returns (h: nat)
    requires Written(t, fc, rc, s, g).Some? && Written(t, fc, rc, s, g).value.kind == MOVE
    ensures var m := Written(t, fc, rc, s, g).value;
      var ds := ParsedDrops(s, h, 3);
      OnBoard(m.i, m.j) && h == HeightAt(g.board, m.i, m.j) &&
      m.drop0 == ds[0] % 256 && m.drop1 == ds[1] % 256 && m.drop2 == ds[2] % 256
  {
    var m := Written(t, fc, rc, s, g).value;
    h := HeightAt(g.board, m.i, m.j);
  }

  /** The drop bounds of a generated stack move. */
  lemma LegalDrops(g: Game, m: Move)
    requires IsLegal(g, m) && m.kind == MOVE
    ensures var h := HeightAt(g.board, m.i, m.j);
      IsDirection(m.di, m.dj) && m.drop0 < h && 1 <= m.drop1 && m.drop0 + m.drop1 + m.drop2 <= h
  {
    LegalStackMove(g, m);
  }

  /** The text a player types for a move: type letter, file letter, rank digit and, for a
      stack move, the direction letter followed by the three drop digits. */
  function TypeLetter(k: MoveKind): CChar
  {
    match k
    case FLAT => 'f' as int
    case WALL => 'w' as int
    case MOVE => 'm' as int
  }

  function DirLetter(di: int, dj: int): CChar
  {
    if dj == -1 then 'w' as int else if dj == 1 then 's' as int else if di == -1 then 'a' as int else 'd' as int
  }

  function Word(m: Move): seq<CChar>
    requires m.drop0 <= 9 && m.drop1 <= 9 && m.drop2 <= 9
  {
    [DirLetter(m.di, m.dj), '0' as int + m.drop0, '0' as int + m.drop1, '0' as int + m.drop2]
  }

  /** Typing an offered move's text gives that move back, for every offered move except the
      stack moves with drop2 = 0 that still carry pieces to the third cell. */
  lemma ParseTyped(g: Game, m: Move)
    requires m in LegalMoves(g) && m.i < 4 && m.j < 4
    requires m.kind == MOVE ==> m.drop2 > 0 || m.drop0 + m.drop1 == HeightAt(g.board, m.i, m.j)
    ensures m.drop0 <= 9 && m.drop1 <= 9 && m.drop2 <= 9
    ensures Parse(TypeLetter(m.kind), 'a' as int + m.i, '1' as int + m.j, Word(m), g) == Some(m)
  {
    LegalMovesMember(g, m);
    LegalDropsInPolicy(g, m);
    var t, fc, rc, s := TypeLetter(m.kind), 'a' as int + m.i, '1' as int + m.j, Word(m);
    TypedWritten(g, m);
    ParseMeansLegal(t, fc, rc, s, g);
  }

  lemma TypedWritten(g: Game, m: Move)
    requires IsLegal(g, m) && m.drop0 <= 9 && m.drop1 <= 9 && m.drop2 <= 9
    requires m.kind == MOVE ==> m.drop2 > 0 || m.drop0 + m.drop1 == HeightAt(g.board, m.i, m.j)
    ensures Written(TypeLetter(m.kind), 'a' as int + m.i, '1' as int + m.j, Word(m), g) == Some(m)
  {
    var t, fc, rc, s := TypeLetter(m.kind), 'a' as int + m.i, '1' as int + m.j, Word(m);
    if m.kind == MOVE {
      LegalDrops(g, m);
      TypedWrittenMove(g, m);
    } else {
      assert KindOf(t) == Some(m.kind);
      assert Written(t, fc, rc, s, g) == Some(m);
    }
  }

  /** `TypedWritten` for a stack move, from the facts about its drops alone. */
  lemma TypedWrittenMove(g: Game, m: Move)
    requires m.kind == MOVE && OnBoard(m.i, m.j) && IsDirection(m.di, m.dj)
    requires var h := HeightAt(g.board, m.i, m.j);
      m.drop0 < h && 1 <= m.drop1 && m.drop0 + m.drop1 + m.drop2 <= h <= 9
    requires m.drop2 > 0 || m.drop0 + m.drop1 == HeightAt(g.board, m.i, m.j)
    ensures Written(TypeLetter(m.kind), 'a' as int + m.i, '1' as int + m.j, Word(m), g) == Some(m)
  {
    var t, fc, rc, s := TypeLetter(m.kind), 'a' as int + m.i, '1' as int + m.j, Word(m);
    var h := HeightAt(g.board, m.i, m.j);
    TypedDrops(s, h, m.drop0, m.drop1, m.drop2);
    DirLetterRead(m.di, m.dj);
    assert fc - 'a' as int == m.i && rc - '1' as int == m.j;
    WrittenMove(t, fc, rc, s, g, m.di, m.dj);
    ByteValue(m.drop0);
    ByteValue(m.drop1);
    ByteValue(m.drop2);
  }

  /** The direction letter of a direction reads back as that direction. */
  lemma DirLetterRead(di: int8, dj: int8)
    requires IsDirection(di, dj)
    ensures DirOf(DirLetter(di as int, dj as int)) == Some((di, dj))
  {
  }

  /** The drop digits of a typed word come back as the drops. */
  lemma TypedDrops(s: seq<CChar>, h: int, d0: int, d1: int, d2: int)
    requires |s| == 4 && 0 <= d0 < h && 1 <= d1 && 0 <= d2 && d0 + d1 + d2 <= h <= 9
    requires s[1] == '0' as int + d0 && s[2] == '0' as int + d1 && s[3] == '0' as int + d2
    requires d2 > 0 || d0 + d1 == h
    ensures ParsedDrops(s, h, 3) == [d0, d1, d2]
  {
    ThreeDrops(s, h);
    assert Digit(s, 0) == d0 && Digit(s, 1) == d1 && Digit(s, 2) == d2;
  }

  /** `Written` for a stack move, in terms of its drops. */
  lemma WrittenMove(t: CChar, fc: CChar, rc: CChar, s: seq<CChar>, g: Game, di: int8, dj: int8)
    requires KindOf(t) == Some(MOVE) && OnBoard(fc - 'a' as int, rc - '1' as int)
    requires |s| > 0 && DirOf(s[0]) == Some((di, dj))
    ensures var ds := ParsedDrops(s, HeightAt(g.board, fc - 'a' as int, rc - '1' as int), 3);
      Written(t, fc, rc, s, g) == Some(Move(MOVE, fc - 'a' as int, rc - '1' as int, di, dj, ds[0] % 256, ds[1] % 256, ds[2] % 256))
  {
  }
}
