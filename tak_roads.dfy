/** Roads and the correctness of the road scan of `game_outcome` (mcts/src/game.cpp:256-299):
    the scan reports a win exactly for a player who has a road, and runs to the end only when
    neither player has one. */
module Roads {
  import opened TakTypes
  import opened UnionFind
  import opened Scoring

  /** A cell as (row, column). */
  type Coord = (int, int)

  /** The union-find index of a cell. */
  function Id(c: Coord): int
  {
    4 * c.0 + c.1
  }

  /** The cell with union-find index x. */
  function CoordOf(x: int): (c: Coord)
    requires 0 <= x < Cells
    ensures OnBoard(c.0, c.1) && Id(c) == x
  {
    (x / 4, x % 4)
  }

  lemma IdInjective(c: Coord, e: Coord)
    requires OnBoard(c.0, c.1) && OnBoard(e.0, e.1) && Id(c) == Id(e)
    ensures c == e
  {
  }

  /** Cells sharing a side. */
  predicate Neighbours(c: Coord, e: Coord)
  {
    (c.1 == e.1 && (c.0 - e.0 == 1 || e.0 - c.0 == 1)) || (c.0 == e.0 && (c.1 - e.1 == 1 || e.1 - c.1 == 1))
  }

  /** A walk through neighbouring cells whose tops are all `p`. */
  predicate Walk(b: seq<uint8>, p: int, w: seq<Coord>)
    requires |b| == BoardSize
  {
    |w| >= 1 &&
    (forall n :: 0 <= n < |w| ==> OnBoard(w[n].0, w[n].1) && Top(b, w[n].0, w[n].1) == p) &&
    (forall n :: 0 <= n < |w| - 1 ==> Neighbours(w[n], w[n + 1]))
  }

  function Last(w: seq<Coord>): Coord
    requires |w| >= 1
  {
    w[|w| - 1]
  }

  /** A road of player p: a walk over p's flats from the left to the right column or from
      the top to the bottom row. */
  predicate Road(b: seq<uint8>, p: int, w: seq<Coord>)
    requires |b| == BoardSize
  {
    IsFlat(p) && Walk(b, p, w) &&
    ((w[0].1 == 0 && Last(w).1 == 3) || (w[0].0 == 0 && Last(w).0 == 3))
  }

  ghost predicate HasRoad(b: seq<uint8>, p: int)
    requires |b| == BoardSize
  {
    exists w :: Road(b, p, w)
  }

  function Reverse(w: seq<Coord>): (r: seq<Coord>)
    ensures |r| == |w| && forall n :: 0 <= n < |w| ==> r[n] == w[|w| - 1 - n]
  {
    seq(|w|, n requires 0 <= n < |w| => w[|w| - 1 - n])
  }

  lemma WalkReverse(b: seq<uint8>, p: int, w: seq<Coord>)
    requires |b| == BoardSize && Walk(b, p, w)
    ensures Walk(b, p, Reverse(w)) && Reverse(w)[0] == Last(w) && Last(Reverse(w)) == w[0]
  {
    var r := Reverse(w);
    forall n | 0 <= n < |r| - 1
      ensures Neighbours(r[n], r[n + 1])
    {
      assert r[n] == w[|w| - 1 - n] && r[n + 1] == w[|w| - 2 - n];
    }
  }

  /** Two walks joined where the first ends and the second starts. */
  lemma WalkJoin(b: seq<uint8>, p: int, u: seq<Coord>, v: seq<Coord>)
    requires |b| == BoardSize && Walk(b, p, u) && Walk(b, p, v) && Last(u) == v[0]
    ensures Walk(b, p, u + v[1..]) && (u + v[1..])[0] == u[0] && Last(u + v[1..]) == Last(v)
  {
    var r := u + v[1..];
    forall n | 0 <= n < |r| - 1
      ensures Neighbours(r[n], r[n + 1])
    {
      if n < |u| - 1 {
      } else if n == |u| - 1 {
        assert r[n] == v[0] && r[n + 1] == v[1];
      } else {
        assert r[n] == v[n - |u| + 1] && r[n + 1] == v[n - |u| + 2];
      }
    }
  }

  /** Two walks joined by a step between neighbours. */
  lemma WalkStep(b: seq<uint8>, p: int, u: seq<Coord>, v: seq<Coord>)
    requires |b| == BoardSize && Walk(b, p, u) && Walk(b, p, v) && Neighbours(Last(u), v[0])
    ensures Walk(b, p, u + v) && (u + v)[0] == u[0] && Last(u + v) == Last(v)
  {
    var r := u + v;
    forall n | 0 <= n < |r| - 1
      ensures Neighbours(r[n], r[n + 1])
    {
      if n < |u| - 1 {
      } else if n == |u| - 1 {
      } else {
        assert r[n] == v[n - |u|] && r[n + 1] == v[n - |u| + 1];
      }
    }
  }

  /** Every cell that is not a root has a flat top and a walk of that colour to its root. */
  ghost predicate Linked(b: seq<uint8>, s: UnionState)
    requires |b| == BoardSize && Valid(s)
  {
    forall c: Coord :: OnBoard(c.0, c.1) && Root(s, Id(c)) != Id(c) ==>
      IsFlat(Top(b, c.0, c.1)) &&
      exists w :: Walk(b, Top(b, c.0, c.1), w) && w[0] == c && Id(Last(w)) == Root(s, Id(c))
  }

  /** A walk from any cell to its root, in the cell's colour. */
  lemma WalkToRoot(b: seq<uint8>, s: UnionState, c: Coord) returns (w: seq<Coord>)
    requires |b| == BoardSize && Valid(s) && Linked(b, s) && OnBoard(c.0, c.1)
    ensures Walk(b, Top(b, c.0, c.1), w) && w[0] == c && Last(w) == CoordOf(Root(s, Id(c)))
  {
    if Root(s, Id(c)) == Id(c) {
      w := [c];
      IdInjective(c, CoordOf(Id(c)));
    } else {
      w :| Walk(b, Top(b, c.0, c.1), w) && w[0] == c && Id(Last(w)) == Root(s, Id(c));
      IdInjective(Last(w), CoordOf(Root(s, Id(c))));
    }
  }

  /** Two neighbouring flats of the same colour. */
  predicate Joinable(b: seq<uint8>, c: Coord, e: Coord)
    requires |b| == BoardSize
  {
    OnBoard(c.0, c.1) && OnBoard(e.0, e.1) && Neighbours(c, e) &&
    Top(b, c.0, c.1) == Top(b, e.0, e.1) && IsFlat(Top(b, c.0, c.1))
  }

  /** Uniting two joinable cells keeps `Linked`. */
  lemma LinkedAfterUnite(b: seq<uint8>, s: UnionState, ca: Coord, cc: Coord)
    requires |b| == BoardSize && Valid(s) && Linked(b, s) && Joinable(b, ca, cc)
    ensures Linked(b, Unite(s, Id(ca), Id(cc)))
  {
    var a, c := Id(ca), Id(cc);
    var ra, rc := Root(s, a), Root(s, c);
    var t := Unite(s, a, c);
    var p := Top(b, ca.0, ca.1);
    if ra != rc {
      forall x: Coord | OnBoard(x.0, x.1) && Root(t, Id(x)) != Id(x)
        ensures IsFlat(Top(b, x.0, x.1)) &&
          exists w :: Walk(b, Top(b, x.0, x.1), w) && w[0] == x && Id(Last(w)) == Root(t, Id(x))
      {
        RootAfterUnite(s, a, c, Id(x));
        if Root(s, Id(x)) == rc {
          var w1 := WalkToRoot(b, s, x);
          var w2 := WalkToRoot(b, s, cc);
          var w3 := WalkToRoot(b, s, ca);
          assert Top(b, x.0, x.1) == p by {
            assert Top(b, Last(w1).0, Last(w1).1) == Top(b, x.0, x.1);
            assert Top(b, Last(w2).0, Last(w2).1) == Top(b, cc.0, cc.1);
          }
          WalkReverse(b, p, w2);
          var back := Reverse(w2);
          WalkJoin(b, p, w1, back);
          var toC := w1 + back[1..];
          WalkStep(b, p, toC, w3);
          var w := toC + w3;
          assert Walk(b, Top(b, x.0, x.1), w) && w[0] == x && Id(Last(w)) == Root(t, Id(x));
        } else {
          assert Root(t, Id(x)) == Root(s, Id(x));
        }
      }
    }
  }

  /** No root's component spans the board. */
  predicate NoSpan(s: UnionState)
    requires Valid(s)
  {
    forall r :: 0 <= r < Cells && s.uf[r] == -1 ==> !Spans(s, r)
  }

  /** Every pair of the scan before cell n, direction k, that joins two flats of one colour
      has been united. */
  ghost predicate Processed(b: seq<uint8>, s: UnionState, n: int, k: int)
    requires |b| == BoardSize && Valid(s)
  {
    forall c: Coord, d ::
      (OnBoard(c.0, c.1) && 0 <= d < 4 && (Id(c) < n || (Id(c) == n && d < k)) &&
       Joinable(b, c, (c.0 + DirI[d], c.1 + DirJ[d]))) ==>
      Root(s, Id(c)) == Root(s, Id((c.0 + DirI[d], c.1 + DirJ[d])))
  }

  /** What holds of the scan's union-find state before cell n, direction k. */
  ghost predicate Inv(b: seq<uint8>, s: UnionState, n: int, k: int)
    requires |b| == BoardSize
  {
    Valid(s) && FlagsAreOr(s, EdgeFlags()) && Linked(b, s) && NoSpan(s) && Processed(b, s, n, k)
  }

  /** A reported winner has a road. */
  ghost predicate WinnerHasRoad(b: seq<uint8>, w: Outcome)
    requires |b| == BoardSize
  {
    (w == P1_WIN && HasRoad(b, 1)) || (w == P2_WIN && HasRoad(b, 2))
  }

  ghost predicate Good(b: seq<uint8>, sc: Scan, n: int, k: int)
    requires |b| == BoardSize
  {
    match sc
    case Running(s) => Inv(b, s, n, k)
    case Found(w) => WinnerHasRoad(b, w)
  }

  /** An edge flag of cell x, in the flags' own terms. */
  lemma EdgeOfCoord(c: Coord)
    requires OnBoard(c.0, c.1)
    ensures EdgeFlags()[Id(c)] == (c.1 == 0)
    ensures EdgeFlags()[Cells + Id(c)] == (c.1 == 3)
    ensures EdgeFlags()[2 * Cells + Id(c)] == (c.0 == 0)
    ensures EdgeFlags()[3 * Cells + Id(c)] == (c.0 == 3)
  {
    EdgeFlagAt(0, Id(c));
    EdgeFlagAt(1, Id(c));
    EdgeFlagAt(2, Id(c));
    EdgeFlagAt(3, Id(c));
  }

  /** A cell of root r's component with flag d of the edge flags. */
  lemma EdgeMember(s: UnionState, d: int, r: int) returns (c: Coord)
    requires Valid(s) && FlagsAreOr(s, EdgeFlags()) && 0 <= d < 4 && 0 <= r < Cells && s.uf[r] == -1
    requires s.dirs[Cells * d + r]
    ensures OnBoard(c.0, c.1) && Root(s, Id(c)) == r && EdgeFlags()[Cells * d + Id(c)]
  {
    var x := MemberWitness(s, EdgeFlags(), d, r, Cells);
    c := CoordOf(x);
  }

  /** A spanning component whose root has a walk from a flat of colour p is a road of p. */
  lemma SpanningRoad(b: seq<uint8>, s: UnionState, r: int, p: int)
    requires |b| == BoardSize && Valid(s) && FlagsAreOr(s, EdgeFlags()) && Linked(b, s)
    requires 0 <= r < Cells && s.uf[r] == -1 && Spans(s, r)
    requires IsFlat(p) && Top(b, CoordOf(r).0, CoordOf(r).1) == p
    ensures HasRoad(b, p)
  {
    var d := if s.dirs[r] && s.dirs[Cells + r] then 0 else 2;
    var x := EdgeCell(s, d, r);
    var y := EdgeCell(s, d + 1, r);
    RoadBetween(b, s, r, p, x, y);
  }

  /** A cell of root r's component on the edge that flag d stands for. */
  lemma EdgeCell(s: UnionState, d: int, r: int) returns (c: Coord)
    requires Valid(s) && FlagsAreOr(s, EdgeFlags()) && 0 <= d < 4 && 0 <= r < Cells && s.uf[r] == -1
    requires s.dirs[Cells * d + r]
    ensures OnBoard(c.0, c.1) && Root(s, Id(c)) == r
    ensures (d == 0 ==> c.1 == 0) && (d == 1 ==> c.1 == 3) && (d == 2 ==> c.0 == 0) && (d == 3 ==> c.0 == 3)
  {
    c := EdgeMember(s, d, r);
    EdgeOfCoord(c);
  }

  /** Two cells on opposite edges of the component of a root of colour p are joined by a
      road of p. */
  lemma RoadBetween(b: seq<uint8>, s: UnionState, r: int, p: int, x: Coord, y: Coord)
    requires |b| == BoardSize && Valid(s) && Linked(b, s)
    requires 0 <= r < Cells && s.uf[r] == -1 && IsFlat(p) && Top(b, CoordOf(r).0, CoordOf(r).1) == p
    requires OnBoard(x.0, x.1) && OnBoard(y.0, y.1) && Root(s, Id(x)) == r && Root(s, Id(y)) == r
    requires (x.1 == 0 && y.1 == 3) || (x.0 == 0 && y.0 == 3)
    ensures HasRoad(b, p)
  {
    var w1 := WalkToRoot(b, s, x);
    var w2 := WalkToRoot(b, s, y);
    assert Top(b, x.0, x.1) == p by {
      assert Top(b, Last(w1).0, Last(w1).1) == Top(b, x.0, x.1);
    }
    assert Top(b, y.0, y.1) == p by {
      assert Top(b, Last(w2).0, Last(w2).1) == Top(b, y.0, y.1);
    }
    WalkReverse(b, p, w2);
    WalkJoin(b, p, w1, Reverse(w2));
    assert Road(b, p, w1 + Reverse(w2)[1..]);
  }

  /** The initial state satisfies the invariant. */
  lemma InitGood(b: seq<uint8>)
    requires |b| == BoardSize
    ensures Inv(b, Singletons(EdgeFlags()), 0, 0)
  {
    var s := Singletons(EdgeFlags());
    SingletonsAreOr(EdgeFlags());
    forall r | 0 <= r < Cells
      ensures !Spans(s, r)
    {
      EdgeOfCoord(CoordOf(r));
    }
  }

  /** A cell other than the two roots keeps its flags when two components unite. */
  lemma OtherRootFlags(s: UnionState, a: int, c: int, r: int)
    requires Valid(s) && 0 <= a < Cells && 0 <= c < Cells && 0 <= r < Cells
    requires Root(s, a) != Root(s, c) && r != Root(s, a) && r != Root(s, c)
    ensures Spans(Unite(s, a, c), r) == Spans(s, r)
  {
    var ra, rc := Root(s, a), Root(s, c);
    assert Unite(s, a, c).dirs == Joined(s.dirs, ra, rc);
    JoinedAt(s.dirs, ra, rc, 0, r);
    JoinedAt(s.dirs, ra, rc, 1, r);
    JoinedAt(s.dirs, ra, rc, 2, r);
    JoinedAt(s.dirs, ra, rc, 3, r);
  }

  /** Uniting keeps every root other than a's new root, with its flags. */
  lemma NoSpanAfterUnite(s: UnionState, a: int, c: int)
    requires Valid(s) && NoSpan(s) && 0 <= a < Cells && 0 <= c < Cells
    requires var t := Unite(s, a, c); !Spans(t, Root(t, a))
    ensures NoSpan(Unite(s, a, c))
  {
    var t := Unite(s, a, c);
    var ra, rc := Root(s, a), Root(s, c);
    if ra != rc {
      RootAfterUnite(s, a, c, a);
      forall r | 0 <= r < Cells && t.uf[r] == -1
        ensures !Spans(t, r)
      {
        if r != ra {
          assert r != rc && s.uf[r] == -1;
          OtherRootFlags(s, a, c, r);
        }
      }
    }
  }

  /** Uniting the pair of cell (i, j) and direction k keeps the pairs already united and
      adds that pair. */
  lemma ProcessedAfterUnite(b: seq<uint8>, s: UnionState, i: int, j: int, k: int)
    requires |b| == BoardSize && Valid(s) && OnBoard(i, j) && 0 <= k < 4 && Processed(b, s, 4 * i + j, k)
    requires OnBoard(i + DirI[k], j + DirJ[k])
    ensures Processed(b, Unite(s, Id((i, j)), Id((i + DirI[k], j + DirJ[k]))), 4 * i + j, k + 1)
  {
    var a, c := Id((i, j)), Id((i + DirI[k], j + DirJ[k]));
    var t := Unite(s, a, c);
    forall x: Coord, d | OnBoard(x.0, x.1) && 0 <= d < 4 && (Id(x) < 4 * i + j || (Id(x) == 4 * i + j && d < k + 1)) &&
      Joinable(b, x, (x.0 + DirI[d], x.1 + DirJ[d]))
      ensures Root(t, Id(x)) == Root(t, Id((x.0 + DirI[d], x.1 + DirJ[d])))
    {
      if !(Id(x) == 4 * i + j && d == k) {
        assert Root(s, Id(x)) == Root(s, Id((x.0 + DirI[d], x.1 + DirJ[d])));
      }
      PairAfterUnite(s, i, j, k, x, d);
    }
  }

  /** One pair of `ProcessedAfterUnite`. */
  lemma PairAfterUnite(s: UnionState, i: int, j: int, k: int, x: Coord, d: int)
    requires Valid(s) && OnBoard(i, j) && 0 <= k < 4 && OnBoard(i + DirI[k], j + DirJ[k])
    requires OnBoard(x.0, x.1) && 0 <= d < 4 && OnBoard(x.0 + DirI[d], x.1 + DirJ[d])
    requires (Id(x) == 4 * i + j && d == k) || Root(s, Id(x)) == Root(s, Id((x.0 + DirI[d], x.1 + DirJ[d])))
    ensures var t := Unite(s, Id((i, j)), Id((i + DirI[k], j + DirJ[k])));
      Root(t, Id(x)) == Root(t, Id((x.0 + DirI[d], x.1 + DirJ[d])))
  {
    var a, c := Id((i, j)), Id((i + DirI[k], j + DirJ[k]));
    var e := (x.0 + DirI[d], x.1 + DirJ[d]);
    if Id(x) == 4 * i + j && d == k {
      IdInjective(x, (i, j));
      assert Id(x) == a && Id(e) == c;
      UnitedPair(s, a, c, a, c);
    } else {
      UnitedPair(s, a, c, Id(x), Id(e));
    }
  }

  /** After uniting a and c, two cells share a root if they did before or are a and c. */
  lemma UnitedPair(s: UnionState, a: int, c: int, p: int, q: int)
    requires Valid(s) && 0 <= a < Cells && 0 <= c < Cells && 0 <= p < Cells && 0 <= q < Cells
    requires Root(s, p) == Root(s, q) || (p == a && q == c)
    ensures Root(Unite(s, a, c), p) == Root(Unite(s, a, c), q)
  {
    RootAfterUnite(s, a, c, a);
    RootAfterUnite(s, a, c, c);
    RootAfterUnite(s, a, c, p);
    RootAfterUnite(s, a, c, q);
  }

  /** One pass keeps the invariant, or reports a winner that has a road. */
  lemma PairStepGood(b: seq<uint8>, s: UnionState, i: int, j: int, k: int)
    requires |b| == BoardSize && OnBoard(i, j) && 0 <= k < 4 && Inv(b, s, 4 * i + j, k)
    ensures Good(b, PairStep(b, s, i, j, k), 4 * i + j, k + 1)
  {
    if Joinable(b, (i, j), (i + DirI[k], j + DirJ[k])) {
      JoinGood(b, s, i, j, k);
    } else {
      SkipGood(b, s, i, j, k);
    }
  }

  /** `PairStepGood` for a pair of flats of one colour. */
  lemma JoinGood(b: seq<uint8>, s: UnionState, i: int, j: int, k: int)
    requires |b| == BoardSize && OnBoard(i, j) && 0 <= k < 4 && Inv(b, s, 4 * i + j, k)
    requires Joinable(b, (i, j), (i + DirI[k], j + DirJ[k]))
    ensures Good(b, PairStep(b, s, i, j, k), 4 * i + j, k + 1)
  {
    var c, e := (i, j), (i + DirI[k], j + DirJ[k]);
    JoinsAt(b, s, i, j, k);
    var t := Unite(s, Id(c), Id(e));
    if Spans(t, Root(t, Id(c))) {
      var w := if Top(b, i, j) == 1 then P1_WIN else P2_WIN;
      assert PairStep(b, s, i, j, k) == Found(w);
      JoinFound(b, s, c, e);
    } else {
      assert PairStep(b, s, i, j, k) == Running(t);
      JoinRunning(b, s, i, j, k);
    }
  }

  /** `PairStepJoins` in terms of cell numbers. */
  lemma JoinsAt(b: seq<uint8>, s: UnionState, i: int, j: int, k: int)
    requires |b| == BoardSize && Valid(s) && OnBoard(i, j) && 0 <= k < 4
    requires Joinable(b, (i, j), (i + DirI[k], j + DirJ[k]))
    ensures var t := Unite(s, Id((i, j)), Id((i + DirI[k], j + DirJ[k])));
      PairStep(b, s, i, j, k) ==
        if Spans(t, Root(t, Id((i, j)))) then Found(if Top(b, i, j) == 1 then P1_WIN else P2_WIN) else Running(t)
  {
    assert Id((i + DirI[k], j + DirJ[k])) == 4 * (i + DirI[k]) + j + DirJ[k];
    PairStepJoins(b, s, i, j, k);
  }

  /** `PairStepGood` for any other pair. */
  lemma SkipGood(b: seq<uint8>, s: UnionState, i: int, j: int, k: int)
    requires |b| == BoardSize && OnBoard(i, j) && 0 <= k < 4 && Inv(b, s, 4 * i + j, k)
    requires !Joinable(b, (i, j), (i + DirI[k], j + DirJ[k]))
    ensures Good(b, PairStep(b, s, i, j, k), 4 * i + j, k + 1)
  {
    PairStepSkips(b, s, i, j, k);
    ProcessedSkip(b, s, i, j, k);
  }

  lemma PairStepSkips(b: seq<uint8>, s: UnionState, i: int, j: int, k: int)
    requires |b| == BoardSize && Valid(s) && OnBoard(i, j) && 0 <= k < 4
    requires !Joinable(b, (i, j), (i + DirI[k], j + DirJ[k]))
    ensures PairStep(b, s, i, j, k) == Running(s)
  {
  }

  /** A pair that does not join two flats of one colour adds nothing to unite. */
  lemma ProcessedSkip(b: seq<uint8>, s: UnionState, i: int, j: int, k: int)
    requires |b| == BoardSize && Valid(s) && OnBoard(i, j) && 0 <= k < 4 && Processed(b, s, 4 * i + j, k)
    requires !Joinable(b, (i, j), (i + DirI[k], j + DirJ[k]))
    ensures Processed(b, s, 4 * i + j, k + 1)
  {
    forall x: Coord, d | OnBoard(x.0, x.1) && 0 <= d < 4 && (Id(x) < 4 * i + j || (Id(x) == 4 * i + j && d < k + 1)) &&
      Joinable(b, x, (x.0 + DirI[d], x.1 + DirJ[d]))
      ensures Root(s, Id(x)) == Root(s, Id((x.0 + DirI[d], x.1 + DirJ[d])))
    {
      SkipAt(b, s, i, j, k, x, d);
    }
  }

  /** One pair of `ProcessedSkip`: a pair scanned before (i, j, k) as it was before, and
      the pair at (i, j, k) not joinable. */
  lemma SkipAt(b: seq<uint8>, s: UnionState, i: int, j: int, k: int, x: Coord, d: int)
    requires |b| == BoardSize && Valid(s) && OnBoard(i, j) && 0 <= k < 4 && Processed(b, s, 4 * i + j, k)
    requires !Joinable(b, (i, j), (i + DirI[k], j + DirJ[k]))
    requires OnBoard(x.0, x.1) && 0 <= d < 4 && (Id(x) < 4 * i + j || (Id(x) == 4 * i + j && d < k + 1))
    requires Joinable(b, x, (x.0 + DirI[d], x.1 + DirJ[d]))
    ensures Root(s, Id(x)) == Root(s, Id((x.0 + DirI[d], x.1 + DirJ[d])))
  {
    if Id(x) == 4 * i + j && d == k {
      IdInjective(x, (i, j));
      assert false;
    }
  }

  /** A union whose component spans the board is a road of the united colour. */
  lemma JoinFound(b: seq<uint8>, s: UnionState, c: Coord, e: Coord)
    requires |b| == BoardSize && Valid(s) && FlagsAreOr(s, EdgeFlags()) && Linked(b, s) && Joinable(b, c, e)
    requires var t := Unite(s, Id(c), Id(e)); Spans(t, Root(t, Id(c)))
    ensures WinnerHasRoad(b, if Top(b, c.0, c.1) == 1 then P1_WIN else P2_WIN)
  {
    var t := Unite(s, Id(c), Id(e));
    UnitePreservesOr(s, EdgeFlags(), Id(c), Id(e));
    LinkedAfterUnite(b, s, c, e);
    var w := WalkToRoot(b, t, c);
    var p := Top(b, c.0, c.1);
    assert Top(b, Last(w).0, Last(w).1) == p;
    SpanningRoad(b, t, Root(t, Id(c)), p);
  }

  /** A union whose component does not span the board keeps the invariant. */
  lemma JoinRunning(b: seq<uint8>, s: UnionState, i: int, j: int, k: int)
    requires |b| == BoardSize && OnBoard(i, j) && 0 <= k < 4 && Inv(b, s, 4 * i + j, k)
    requires Joinable(b, (i, j), (i + DirI[k], j + DirJ[k]))
    requires var t := Unite(s, Id((i, j)), Id((i + DirI[k], j + DirJ[k]))); !Spans(t, Root(t, Id((i, j))))
    ensures Inv(b, Unite(s, Id((i, j)), Id((i + DirI[k], j + DirJ[k]))), 4 * i + j, k + 1)
  {
    var c, e := (i, j), (i + DirI[k], j + DirJ[k]);
    UnitePreservesOr(s, EdgeFlags(), Id(c), Id(e));
    LinkedAfterUnite(b, s, c, e);
    NoSpanAfterUnite(s, Id(c), Id(e));
    ProcessedAfterUnite(b, s, i, j, k);
  }

  lemma {:induction false} DirsGood(b: seq<uint8>, sc: Scan, i: int, j: int, k: nat)
    requires |b| == BoardSize && OnBoard(i, j) && k <= 4 && (sc.Running? ==> Valid(sc.state))
    requires Good(b, sc, 4 * i + j, 0)
    ensures Good(b, ScanDirs(b, sc, i, j, k), 4 * i + j, k)
  {
    if k > 0 {
      DirsGood(b, sc, i, j, k - 1);
      var prev := ScanDirs(b, sc, i, j, k - 1);
      if prev.Running? {
        PairStepGood(b, prev.state, i, j, k - 1);
      }
    }
  }

  lemma {:induction false} CellsGood(b: seq<uint8>, sc: Scan, i: int, j: nat)
    requires |b| == BoardSize && 0 <= i < 4 && j <= 4 && (sc.Running? ==> Valid(sc.state))
    requires Good(b, sc, 4 * i, 0)
    ensures Good(b, ScanCells(b, sc, i, j), 4 * i + j, 0)
  {
    if j == 0 {
      assert ScanCells(b, sc, i, j) == sc;
    } else {
      CellsGood(b, sc, i, j - 1);
      CellStep(b, ScanCells(b, sc, i, j - 1), i, j - 1, 4 * i + (j - 1), 4 * i + j);
      assert ScanCells(b, sc, i, j) == ScanDirs(b, ScanCells(b, sc, i, j - 1), i, j - 1, 4);
    }
  }

  /** The four passes over cell n = (i, j) take the invariant before n to the one before
      n + 1 = m. */
  lemma CellStep(b: seq<uint8>, sc: Scan, i: int, j: int, n: int, m: int)
    requires |b| == BoardSize && OnBoard(i, j) && (sc.Running? ==> Valid(sc.state))
    requires n == 4 * i + j && m == n + 1 && Good(b, sc, n, 0)
    ensures Good(b, ScanDirs(b, sc, i, j, 4), m, 0)
  {
    DirsGood(b, sc, i, j, 4);
    NextCellGood(b, ScanDirs(b, sc, i, j, 4), n, m);
  }

  /** Before cell n + 1 the scan has done what it had done after the last direction of n. */
  lemma NextCellGood(b: seq<uint8>, sc: Scan, n: int, m: int)
    requires |b| == BoardSize && (sc.Running? ==> Valid(sc.state)) && Good(b, sc, n, 4) && m == n + 1
    ensures Good(b, sc, m, 0)
  {
    if sc.Running? {
      var s := sc.state;
      forall c: Coord, d | OnBoard(c.0, c.1) && 0 <= d < 4 && Id(c) < m && Joinable(b, c, (c.0 + DirI[d], c.1 + DirJ[d]))
        ensures Root(s, Id(c)) == Root(s, Id((c.0 + DirI[d], c.1 + DirJ[d])))
      {
        assert Id(c) < n || (Id(c) == n && d < 4);
      }
    }
  }

  lemma {:induction false} RowsGood(b: seq<uint8>, i: nat)
    requires |b| == BoardSize && i <= 4
    ensures Good(b, ScanRows(b, i), 4 * i, 0)
  {
    if i == 0 {
      InitGood(b);
    } else {
      RowsGood(b, i - 1);
      CellsGood(b, ScanRows(b, i - 1), i - 1, 4);
    }
  }

  /** The direction from a cell to a neighbour. */
  lemma DirectionTo(c: Coord, e: Coord) returns (d: int)
    requires Neighbours(c, e)
    ensures 0 <= d < 4 && e == (c.0 + DirI[d], c.1 + DirJ[d])
  {
    if e.0 == c.0 + 1 {
      d := 0;
    } else if e.0 == c.0 - 1 {
      d := 1;
    } else if e.1 == c.1 + 1 {
      d := 2;
    } else {
      d := 3;
    }
  }

  /** Once every pair is processed, a walk over flats stays in one component. */
  lemma {:induction false} WalkInOneComponent(b: seq<uint8>, s: UnionState, p: int, w: seq<Coord>, n: nat)
    requires |b| == BoardSize && Valid(s) && Processed(b, s, Cells, 0) && IsFlat(p) && Walk(b, p, w)
    requires n < |w|
    ensures Root(s, Id(w[n])) == Root(s, Id(w[0]))
  {
    if n > 0 {
      WalkInOneComponent(b, s, p, w, n - 1);
      var d := DirectionTo(w[n - 1], w[n]);
      assert Joinable(b, w[n - 1], w[n]);
    }
  }

  /** Once every pair is processed, the component of a road spans the board. */
  lemma RoadSpans(b: seq<uint8>, s: UnionState, p: int, w: seq<Coord>)
    requires |b| == BoardSize && Valid(s) && FlagsAreOr(s, EdgeFlags()) && Processed(b, s, Cells, 0)
    requires Road(b, p, w)
    ensures Spans(s, Root(s, Id(w[0])))
  {
    WalkInOneComponent(b, s, p, w, |w| - 1);
    EdgesSpan(s, w[0], Last(w));
  }

  /** Two cells on opposite edges in one component make that component span the board. */
  lemma EdgesSpan(s: UnionState, x: Coord, y: Coord)
    requires Valid(s) && FlagsAreOr(s, EdgeFlags()) && OnBoard(x.0, x.1) && OnBoard(y.0, y.1)
    requires Root(s, Id(y)) == Root(s, Id(x))
    requires (x.1 == 0 && y.1 == 3) || (x.0 == 0 && y.0 == 3)
    ensures Spans(s, Root(s, Id(x)))
  {
    EdgeOfCoord(x);
    EdgeOfCoord(y);
    var d := if x.1 == 0 && y.1 == 3 then 0 else 2;
    OppositeFlags(s, EdgeFlags(), d, Id(x), Id(y));
  }

  /** Members a and c of one component with flags d and d + 1 give its root both flags. */
  lemma OppositeFlags(s: UnionState, init: seq<bool>, d: int, a: int, c: int)
    requires Valid(s) && |init| == Flags && FlagsAreOr(s, init) && 0 <= d < 3 && 0 <= a < Cells && 0 <= c < Cells
    requires init[Cells * d + a] && init[Cells * (d + 1) + c] && Root(s, c) == Root(s, a)
    ensures s.dirs[Cells * d + Root(s, a)] && s.dirs[Cells * (d + 1) + Root(s, a)]
  {
    RootFlag(s, init, d, a);
    RootFlag(s, init, d + 1, c);
  }

  /** A root's flag holds once any member of its component has that flag initially. */
  lemma RootFlag(s: UnionState, init: seq<bool>, d: int, x: int)
    requires Valid(s) && |init| == Flags && FlagsAreOr(s, init) && 0 <= d < 4 && 0 <= x < Cells
    requires init[Cells * d + x]
    ensures s.dirs[Cells * d + Root(s, x)]
  {
    MemberFound(s, init, d, Root(s, x), Cells, x);
  }

  /** A scan that ends without a win leaves no road for either player. */
  lemma NoRoadLeft(b: seq<uint8>, s: UnionState, p: int)
    requires |b| == BoardSize && Inv(b, s, Cells, 0)
    ensures !HasRoad(b, p)
  {
    if w: seq<Coord> :| Road(b, p, w) {
      RoadSpans(b, s, p, w);
    }
  }

  /** The road scan is sound and complete: it reports a player's win only if that player has
      a road, and it runs to the end only if neither player has one. */
  lemma RoadScanCorrect(b: seq<uint8>)
    requires |b| == BoardSize
    ensures RoadScan(b).Found? ==> WinnerHasRoad(b, RoadScan(b).winner)
    ensures RoadScan(b).Running? ==> !HasRoad(b, 1) && !HasRoad(b, 2)
  {
    RowsGood(b, 4);
    if RoadScan(b).Running? {
      NoRoadLeft(b, RoadScan(b).state, 1);
      NoRoadLeft(b, RoadScan(b).state, 2);
    }
  }
}
