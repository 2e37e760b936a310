/** `game_outcome` (mcts/src/game.cpp:228-321): the reserve rule, then the road scan over
    a union-find of equal flat tops, then the full-board rule. */
module Scoring {
  import opened TakTypes
  import opened UnionFind

  /** The top of cell x = i * 4 + j. */
  function CellTop(b: seq<uint8>, x: int): uint8
    requires |b| == BoardSize && 0 <= x < Cells
  {
    b[x * Slots]
  }

  lemma CellTopIsTop(b: seq<uint8>, i: int, j: int)
    requires |b| == BoardSize && OnBoard(i, j)
    ensures CellTop(b, 4 * i + j) == Top(b, i, j)
  {
  }

  /** Number of cells x < n whose top is `code`. */
  function CountTop(b: seq<uint8>, code: int, n: nat): nat
    requires |b| == BoardSize && n <= Cells
  {
    if n == 0 then 0 else CountTop(b, code, n - 1) + (if CellTop(b, n - 1) == code then 1 else 0)
  }

  /** The reserve rule: more flat tops wins, equal counts tie. */
  function Majority(p1: nat, p2: nat): Outcome
  {
    if p1 > p2 then P1_WIN else if p2 > p1 then P2_WIN else TIE
  }

  /** Cell x touches edge d: 0 the column j = 0, 1 the column j = 3, 2 the row i = 0 and
      3 the row i = 3. */
  predicate OnEdge(d: int, x: int)
  {
    (d == 0 && x % 4 == 0) || (d == 1 && x % 4 == 3) || (d == 2 && 0 <= x < 4) || (d == 3 && 12 <= x < Cells)
  }

  /** The flags `game_outcome` starts from. */
  function EdgeFlags(): (f: seq<bool>)
    ensures |f| == Flags
  {
    seq(Flags, k requires 0 <= k < Flags => OnEdge(k / Cells, k % Cells))
  }

  lemma EdgeFlagAt(d: int, x: int)
    requires 0 <= d < 4 && 0 <= x < Cells
    ensures EdgeFlags()[Cells * d + x] == OnEdge(d, x)
  {
    assert (Cells * d + x) / Cells == d && (Cells * d + x) % Cells == x;
  }

  /** The component of root r spans the board: left and right, or top and bottom. */
  predicate Spans(s: UnionState, r: int)
    requires Valid(s) && 0 <= r < Cells
  {
    (s.dirs[r] && s.dirs[Cells + r]) || (s.dirs[2 * Cells + r] && s.dirs[3 * Cells + r])
  }

  datatype Scan = Running(state: UnionState) | Found(winner: Outcome)

  /** One pass of the scan's innermost loop: unite (i, j) with its neighbour in direction k
      if both are flats of the same player, and stop with that player's win when the united
      component spans the board. */
  function PairStep(b: seq<uint8>, s: UnionState, i: int, j: int, k: int): (r: Scan)
    requires |b| == BoardSize && Valid(s) && OnBoard(i, j) && 0 <= k < 4
    ensures r.Running? ==> Valid(r.state)
  {
    var ip, jp := i + DirI[k], j + DirJ[k];
    if !OnBoard(ip, jp) then Running(s)
    else if Top(b, i, j) == Top(b, ip, jp) && IsFlat(Top(b, i, j)) then
      var a := 4 * i + j;
      var t := Unite(s, a, 4 * ip + jp);
      if Spans(t, Root(t, a)) then Found(if Top(b, i, j) == 1 then P1_WIN else P2_WIN)
      else Running(t)
    else Running(s)
  }

  /** `PairStep` where the two cells are flats of the same player. */
  lemma PairStepJoins(b: seq<uint8>, s: UnionState, i: int, j: int, k: int)
    requires |b| == BoardSize && Valid(s) && OnBoard(i, j) && 0 <= k < 4
    requires OnBoard(i + DirI[k], j + DirJ[k]) && Top(b, i, j) == Top(b, i + DirI[k], j + DirJ[k]) && IsFlat(Top(b, i, j))
    ensures var t := Unite(s, 4 * i + j, 4 * (i + DirI[k]) + j + DirJ[k]);
      PairStep(b, s, i, j, k) ==
        if Spans(t, Root(t, 4 * i + j)) then Found(if Top(b, i, j) == 1 then P1_WIN else P2_WIN) else Running(t)
  {
  }

  /** `PairStepJoins` with the two cell numbers named. */
  lemma PairJoinsAt(b: seq<uint8>, s: UnionState, i: int, j: int, k: int, a: int, c: int)
    requires |b| == BoardSize && Valid(s) && OnBoard(i, j) && 0 <= k < 4
    requires OnBoard(i + DirI[k], j + DirJ[k]) && Top(b, i, j) == Top(b, i + DirI[k], j + DirJ[k]) && IsFlat(Top(b, i, j))
    requires a == 4 * i + j && c == 4 * (i + DirI[k]) + (j + DirJ[k])
    ensures var t := Unite(s, a, c);
      PairStep(b, s, i, j, k) ==
        if Spans(t, Root(t, a)) then Found(if Top(b, i, j) == 1 then P1_WIN else P2_WIN) else Running(t)
  {
    assert c == 4 * (i + DirI[k]) + j + DirJ[k];
    PairStepJoins(b, s, i, j, k);
  }

  /** A pass after the scan has stopped changes nothing. */
  function Then(b: seq<uint8>, sc: Scan, i: int, j: int, k: int): (r: Scan)
    requires |b| == BoardSize && (sc.Running? ==> Valid(sc.state)) && OnBoard(i, j) && 0 <= k < 4
    ensures r.Running? ==> Valid(r.state)
  {
    match sc
    case Found(w) => Found(w)
    case Running(s) => PairStep(b, s, i, j, k)
  }

  /** The scan from `sc` over directions 0..k-1 of cell (i, j): the innermost loop. */
  function ScanDirs(b: seq<uint8>, sc: Scan, i: int, j: int, k: nat): (r: Scan)
    requires |b| == BoardSize && (sc.Running? ==> Valid(sc.state)) && OnBoard(i, j) && k <= 4
    ensures r.Running? ==> Valid(r.state)
  {
    if k == 0 then sc else Then(b, ScanDirs(b, sc, i, j, k - 1), i, j, k - 1)
  }

  /** The scan from `sc` over cells (i, 0..j-1): the middle loop. */
  function ScanCells(b: seq<uint8>, sc: Scan, i: int, j: nat): (r: Scan)
    requires |b| == BoardSize && (sc.Running? ==> Valid(sc.state)) && 0 <= i < 4 && j <= 4
    ensures r.Running? ==> Valid(r.state)
  {
    if j == 0 then sc else ScanDirs(b, ScanCells(b, sc, i, j - 1), i, j - 1, 4)
  }

  /** The scan over rows 0..i-1 from the edge flags: the outer loop. */
  function ScanRows(b: seq<uint8>, i: nat): (r: Scan)
    requires |b| == BoardSize && i <= 4
    ensures r.Running? ==> Valid(r.state)
  {
    if i == 0 then Running(Singletons(EdgeFlags())) else ScanCells(b, ScanRows(b, i - 1), i - 1, 4)
  }

  /** The whole road scan. */
  function RoadScan(b: seq<uint8>): Scan
    requires |b| == BoardSize
  {
    ScanRows(b, 4)
  }

  /** The full-board rule: any empty top means the game goes on; otherwise player 1 wins
      with more flat tops and player 2 wins in every other case. */
  function FullBoard(b: seq<uint8>): Outcome
    requires |b| == BoardSize
  {
    if CountTop(b, 0, Cells) > 0 then IN_PROGRESS
    else if CountTop(b, 1, Cells) > CountTop(b, 2, Cells) then P1_WIN
    else P2_WIN
  }

  /** The outcome `game_outcome` reports. */
  function OutcomeOf(g: Game): Outcome
  {
    if g.p1Pieces == 0 || g.p2Pieces == 0 then Majority(CountTop(g.board, 1, Cells), CountTop(g.board, 2, Cells))
    else
      match RoadScan(g.board)
      case Found(w) => w
      case Running(_) => FullBoard(g.board)
  }

  /** `game_outcome`. */
  method GameOutcome(g: Game) returns (r: Outcome)
    ensures r == OutcomeOf(g)
  {
    var b := g.board;
    if g.p1Pieces == 0 || g.p2Pieces == 0 {
      var p1Count, p2Count := CountFlats(b);
      if p1Count > p2Count {
        return P1_WIN;
      } else if p2Count > p1Count {
        return P2_WIN;
      } else {
        return TIE;
      }
    }
    var road := FindRoad(b);
    if road.Some? {
      return road.value;
    }
    r := CountFullBoard(b);
  }

  /** The first counting loop of `game_outcome`: flat tops of each player. */
  method CountFlats(b: seq<uint8>) returns (p1Count: int, p2Count: int)
    requires |b| == BoardSize
    ensures p1Count == CountTop(b, 1, Cells) && p2Count == CountTop(b, 2, Cells)
  {
    p1Count, p2Count := 0, 0;
    for i := 0 to 4
      invariant p1Count == CountTop(b, 1, 4 * i) && p2Count == CountTop(b, 2, 4 * i)
    {
      for j := 0 to 4
        invariant p1Count == CountTop(b, 1, 4 * i + j) && p2Count == CountTop(b, 2, 4 * i + j)
      {
        CellTopIsTop(b, i, j);
        var top := b[Base(i, j)];
        if top == 1 {
          p1Count := p1Count + 1;
        } else if top == 2 {
          p2Count := p2Count + 1;
        }
      }
    }
  }

  /** The last loop of `game_outcome`: stop at the first empty top, otherwise compare the
      flat counts. */
  method CountFullBoard(b: seq<uint8>) returns (r: Outcome)
    requires |b| == BoardSize
    ensures r == FullBoard(b)
  {
    var p1Count, p2Count := 0, 0;
    for i := 0 to 4
      invariant p1Count == CountTop(b, 1, 4 * i) && p2Count == CountTop(b, 2, 4 * i)
      invariant CountTop(b, 0, 4 * i) == 0
    {
      for j := 0 to 4
        invariant p1Count == CountTop(b, 1, 4 * i + j) && p2Count == CountTop(b, 2, 4 * i + j)
        invariant CountTop(b, 0, 4 * i + j) == 0
      {
        CellTopIsTop(b, i, j);
        var top := b[Base(i, j)];
        if top == 1 {
          p1Count := p1Count + 1;
        } else if top == 2 {
          p2Count := p2Count + 1;
        } else if top == 0 {
          CountGrows(b, 0, 4 * i + j + 1, Cells);
          return IN_PROGRESS;
        }
      }
    }
    return if p1Count > p2Count then P1_WIN else P2_WIN;
  }

  lemma {:induction false} CountGrows(b: seq<uint8>, code: int, n: nat, m: nat)
    requires |b| == BoardSize && n <= m <= Cells
    ensures CountTop(b, code, n) <= CountTop(b, code, m)
    decreases m - n
  {
    if n < m {
      CountGrows(b, code, n, m - 1);
    }
  }

  /** The road scan of `game_outcome`: `Some(winner)` at the first united component that
      spans the board, `None` when the scan ends without one. */
  method FindRoad(b: seq<uint8>) returns (road: Option<Outcome>)
    requires |b| == BoardSize
    ensures road == match RoadScan(b) case Found(w) => Some(w) case Running(_) => None
  {
    var uf := new int[Cells](_ => -1);
    var dirs := EdgeInit();
    ghost var dist: seq<nat> := seq(Cells, _ => 0);
    assert uf[..] == Singletons(EdgeFlags()).uf;
    road := ScanBoard(b, uf, dirs, dist);
  }

  /** The outer loop of the road scan, over the rows, from the initial arrays. */
  method ScanBoard(b: seq<uint8>, uf: array<int>, dirs: array<bool>, ghost dist0: seq<nat>) returns (road: Option<Outcome>)
    requires |b| == BoardSize && uf.Length == Cells && dirs.Length == Flags
    requires ScanRows(b, 0) == Running(UnionState(uf[..], dirs[..], dist0))
    modifies uf, dirs
    ensures road == match RoadScan(b) case Found(w) => Some(w) case Running(_) => None
  {
    ghost var dist := dist0;
    for i := 0 to 4
      invariant ScanRows(b, i) == Running(UnionState(uf[..], dirs[..], dist))
    {
      ghost var before := UnionState(uf[..], dirs[..], dist);
      assert Valid(before);
      var found;
      found, dist := ScanRow(b, uf, dirs, i, dist);
      ghost var after := UnionState(uf[..], dirs[..], dist);
      RowDone(b, i, before, found, after);
      if found.Some? {
        return found;
      }
    }
    return None;
  }

  /** After row i the scan has either stopped with the final result or runs on. */
  lemma RowDone(b: seq<uint8>, i: nat, before: UnionState, found: Option<Outcome>, after: UnionState)
    requires |b| == BoardSize && i < 4 && ScanRows(b, i) == Running(before)
    requires AsScan(found, after) == ScanCells(b, Running(before), i, 4)
    ensures found.Some? ==> found == match RoadScan(b) case Found(w) => Some(w) case Running(_) => None
    ensures found.None? ==> ScanRows(b, i + 1) == Running(after)
  {
    if found.Some? {
      FoundRowsLater(b, found.value, i + 1, 4);
    }
  }

  /** The flag array `game_outcome` starts from, set edge by edge. */
  method EdgeInit() returns (dirs: array<bool>)
    ensures fresh(dirs) && dirs[..] == EdgeFlags()
  {
    dirs := new bool[Flags](_ => false);
    for i := 0 to 4
      invariant forall x :: 0 <= x < Flags ==> dirs[x] == EdgeSoFar(x, i)
    {
      dirs[0 * Cells + i * 4 + 0] := true;
      dirs[1 * Cells + i * 4 + 3] := true;
      dirs[2 * Cells + 0 * 4 + i] := true;
      dirs[3 * Cells + 3 * 4 + i] := true;
    }
    EdgeSoFarAll();
  }

  /** One pass of the scan's outer loop: the cells of row i. */
  method ScanRow(b: seq<uint8>, uf: array<int>, dirs: array<bool>, i: int, ghost dist: seq<nat>)
    returns (found: Option<Outcome>, ghost dist': seq<nat>)
    requires |b| == BoardSize && 0 <= i < 4
    requires uf.Length == Cells && dirs.Length == Flags && Forest(uf[..], dist)
    modifies uf, dirs
    ensures AsScan(found, UnionState(uf[..], dirs[..], dist')) ==
      ScanCells(b, Running(UnionState(old(uf[..]), old(dirs[..]), dist)), i, 4)
  {
    ghost var row := Running(UnionState(uf[..], dirs[..], dist));
    dist' := dist;
    for j := 0 to 4
      invariant ScanCells(b, row, i, j) == Running(UnionState(uf[..], dirs[..], dist'))
    {
      ghost var cell := ScanCells(b, row, i, j);
      for k := 0 to 4
        invariant ScanDirs(b, cell, i, j, k) == Running(UnionState(uf[..], dirs[..], dist'))
      {
        found, dist' := ScanPair(b, uf, dirs, i, j, k, dist');
        if found.Some? {
          FoundDirsLater(b, cell, found.value, i, j, k + 1, 4);
          FoundCellsLater(b, row, found.value, i, j + 1, 4);
          return;
        }
      }
    }
    found := None;
  }

  /** The scan state a pass of the loop leaves: the winner it returned, or the arrays. */
  function AsScan(found: Option<Outcome>, s: UnionState): Scan
  {
    if found.Some? then Found(found.value) else Running(s)
  }

  /** One pass of the scan's innermost loop, in place on `uf` and `dirs`. */
  method ScanPair(b: seq<uint8>, uf: array<int>, dirs: array<bool>, i: int, j: int, k: int, ghost dist: seq<nat>)
    returns (found: Option<Outcome>, ghost dist': seq<nat>)
    requires |b| == BoardSize && OnBoard(i, j) && 0 <= k < 4
    requires uf.Length == Cells && dirs.Length == Flags && Forest(uf[..], dist)
    modifies uf, dirs
    ensures AsScan(found, UnionState(uf[..], dirs[..], dist')) ==
      PairStep(b, UnionState(old(uf[..]), old(dirs[..]), dist), i, j, k)
  {
    ghost var s := UnionState(uf[..], dirs[..], dist);
    found, dist' := None, dist;
    var di, dj := DirI[k], DirJ[k];
    var ip, jp := i + di, j + dj;
    if ip < 0 || ip >= 4 || jp < 0 || jp >= 4 {
      return;
    }
    var top := b[Base(i, j)];
    assert top == Top(b, i, j) && b[Base(ip, jp)] == Top(b, ip, jp);
    if top == b[Base(ip, jp)] && (top == 1 || top == 2) {
      var a := i * 4 + j;
      var c := ip * 4 + jp;
      PairJoinsAt(b, s, i, j, k, a, c);
      found, dist' := JoinCells(uf, dirs, a, c, top, dist);
    }
  }

  /** The body of the scan's inner `if`: unite cells a and c, then report `top`'s win if the
      component of a now spans the board. */
  method JoinCells(uf: array<int>, dirs: array<bool>, a: int, c: int, top: uint8, ghost dist: seq<nat>)
    returns (found: Option<Outcome>, ghost dist': seq<nat>)
    requires uf.Length == Cells && dirs.Length == Flags && Forest(uf[..], dist)
    requires 0 <= a < Cells && 0 <= c < Cells
    modifies uf, dirs
    ensures var t := Unite(UnionState(old(uf[..]), old(dirs[..]), dist), a, c);
      AsScan(found, UnionState(uf[..], dirs[..], dist')) ==
        if Spans(t, Root(t, a)) then Found(if top == 1 then P1_WIN else P2_WIN) else Running(t)
  {
    ghost var s0 := UnionState(uf[..], dirs[..], dist);
    dist' := UnionDir(uf, dirs, a, c, dist);
    ghost var t := Unite(s0, a, c);
    assert UnionState(uf[..], dirs[..], dist') == t;
    var aNew := Find(uf[..], dist', a);
    assert aNew == Root(t, a);
    assert Spans(t, aNew) <==> (dirs[aNew] && dirs[Cells + aNew]) || (dirs[2 * Cells + aNew] && dirs[3 * Cells + aNew]);
    if (dirs[aNew] && dirs[Cells + aNew]) || (dirs[2 * Cells + aNew] && dirs[3 * Cells + aNew]) {
      if top == 1 {
        return Some(P1_WIN), dist';
      } else {
        return Some(P2_WIN), dist';
      }
    }
    return None, dist';
  }

  /** Flag x after the first i passes of the initialising loop. */
  predicate EdgeSoFar(x: int, i: int)
  {
    var d, c := x / Cells, x % Cells;
    (d == 0 && c % 4 == 0 && c / 4 < i) || (d == 1 && c % 4 == 3 && c / 4 < i) ||
    (d == 2 && c < 4 && c < i) || (d == 3 && 12 <= c && c - 12 < i)
  }

  lemma EdgeSoFarAll()
    ensures forall x :: 0 <= x < Flags ==> EdgeSoFar(x, 4) == EdgeFlags()[x]
  {
  }

  /** Once the scan has found a road it keeps it, through the rest of each loop. */
  lemma {:induction false} FoundDirs(b: seq<uint8>, w: Outcome, i: int, j: int, k: nat)
    requires |b| == BoardSize && OnBoard(i, j) && k <= 4
    ensures ScanDirs(b, Found(w), i, j, k) == Found(w)
  {
    if k > 0 {
      FoundDirs(b, w, i, j, k - 1);
    }
  }

  lemma {:induction false} FoundCells(b: seq<uint8>, w: Outcome, i: int, j: nat)
    requires |b| == BoardSize && 0 <= i < 4 && j <= 4
    ensures ScanCells(b, Found(w), i, j) == Found(w)
  {
    if j > 0 {
      FoundCells(b, w, i, j - 1);
      FoundDirs(b, w, i, j - 1, 4);
    }
  }

  lemma {:induction false} FoundDirsLater(b: seq<uint8>, sc: Scan, w: Outcome, i: int, j: int, k: nat, k': nat)
    requires |b| == BoardSize && (sc.Running? ==> Valid(sc.state)) && OnBoard(i, j) && k <= k' <= 4
    requires ScanDirs(b, sc, i, j, k) == Found(w)
    ensures ScanDirs(b, sc, i, j, k') == Found(w)
    decreases k' - k
  {
    if k < k' {
      FoundDirsLater(b, sc, w, i, j, k, k' - 1);
    }
  }

  lemma {:induction false} FoundCellsLater(b: seq<uint8>, sc: Scan, w: Outcome, i: int, j: nat, j': nat)
    requires |b| == BoardSize && (sc.Running? ==> Valid(sc.state)) && 0 <= i < 4 && j <= j' <= 4
    requires ScanCells(b, sc, i, j) == Found(w)
    ensures ScanCells(b, sc, i, j') == Found(w)
    decreases j' - j
  {
    if j < j' {
      FoundCellsLater(b, sc, w, i, j, j' - 1);
      FoundDirs(b, w, i, j' - 1, 4);
    }
  }

  lemma {:induction false} FoundRowsLater(b: seq<uint8>, w: Outcome, i: nat, i': nat)
    requires |b| == BoardSize && i <= i' <= 4 && ScanRows(b, i) == Found(w)
    ensures ScanRows(b, i') == Found(w)
    decreases i' - i
  {
    if i < i' {
      FoundRowsLater(b, w, i, i' - 1);
      FoundCells(b, w, i' - 1, 4);
    }
  }
}
