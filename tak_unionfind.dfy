/** The union-find structure `game_outcome` uses to track road components: `find` and
    `union_dir` (mcts/src/game.cpp:204-226). Cells are numbered i * 4 + j; the flags
    `bool dirs[4][16]` are laid out flat, flag d of cell x at index 16 * d + x. */
module UnionFind {

  const Cells := 16
  const Flags := 4 * Cells

  /** `uf[x]` is -1 at a root and x's parent otherwise; the ghost rank `dist` strictly
      decreases from a cell to its parent, so parent links form a forest. */
  predicate Forest(uf: seq<int>, dist: seq<nat>)
  {
    |uf| == Cells && |dist| == Cells &&
    forall x :: 0 <= x < Cells ==> uf[x] == -1 || (0 <= uf[x] < Cells && dist[uf[x]] < dist[x])
  }

  /** `find`: follow parent links to the root. */
  function Find(uf: seq<int>, ghost dist: seq<nat>, a: int): (r: int)
    requires Forest(uf, dist) && 0 <= a < Cells
    ensures 0 <= r < Cells && uf[r] == -1
    ensures uf[a] == -1 ==> r == a
    decreases dist[a]
  {
    if uf[a] == -1 then a else Find(uf, dist, uf[a])
  }

  /** The parent array, the component flags and the ghost ranks. */
  datatype UnionState = UnionState(uf: seq<int>, dirs: seq<bool>, dist: seq<nat>)

  predicate Valid(s: UnionState)
  {
    Forest(s.uf, s.dist) && |s.dirs| == Flags
  }

  function Root(s: UnionState, x: int): int
    requires Valid(s) && 0 <= x < Cells
  {
    Find(s.uf, s.dist, x)
  }

  /** Every cell its own component, with the given flags. */
  function Singletons(flags: seq<bool>): (s: UnionState)
    requires |flags| == Flags
    ensures Valid(s)
  {
    UnionState(seq(Cells, _ => -1), flags, seq(Cells, _ => 0))
  }

  /** Ranks after hanging root rb under root ra: rb's component sinks below ra. */
  function Rerank(s: UnionState, ra: int, rb: int): (d: seq<nat>)
    requires Valid(s) && 0 <= ra < Cells && 0 <= rb < Cells
    ensures |d| == Cells
  {
    seq(Cells, x requires 0 <= x < Cells => if Root(s, x) == rb then s.dist[x] + s.dist[ra] + 1 else s.dist[x])
  }

  /** The four flag updates of `union_dir`: root ra gets the OR of both roots' flags. */
  function Joined(dirs: seq<bool>, ra: int, rb: int): (r: seq<bool>)
    requires |dirs| == Flags && 0 <= ra < Cells && 0 <= rb < Cells
    ensures |r| == Flags
  {
    dirs[ra := dirs[ra] || dirs[rb]]
        [Cells + ra := dirs[Cells + ra] || dirs[Cells + rb]]
        [2 * Cells + ra := dirs[2 * Cells + ra] || dirs[2 * Cells + rb]]
        [3 * Cells + ra := dirs[3 * Cells + ra] || dirs[3 * Cells + rb]]
  }

  /** Flag d of cell r after `Joined`. */
  lemma JoinedAt(dirs: seq<bool>, ra: int, rb: int, d: int, r: int)
    requires |dirs| == Flags && 0 <= ra < Cells && 0 <= rb < Cells && 0 <= d < 4 && 0 <= r < Cells
    ensures Joined(dirs, ra, rb)[Cells * d + r] ==
      if r == ra then dirs[Cells * d + ra] || dirs[Cells * d + rb] else dirs[Cells * d + r]
  {
    if d == 0 {
    } else if d == 1 {
    } else if d == 2 {
    } else {
    }
  }

  /** `union_dir(uf, dirs, a, b)`: find both roots; if they differ, hang b's root under a's
      and OR the flags into a's root. */
  function Unite(s: UnionState, a: int, b: int): (t: UnionState)
    requires Valid(s) && 0 <= a < Cells && 0 <= b < Cells
    ensures Valid(t)
  {
    var ra := Root(s, a);
    var rb := Root(s, b);
    if ra == rb then s
    else
      UniteForest(s, ra, rb);
      UnionState(s.uf[rb := ra], Joined(s.dirs, ra, rb), Rerank(s, ra, rb))
  }

  lemma UniteForest(s: UnionState, ra: int, rb: int)
    requires Valid(s) && 0 <= ra < Cells && 0 <= rb < Cells && ra != rb
    requires s.uf[ra] == -1 && s.uf[rb] == -1
    ensures Forest(s.uf[rb := ra], Rerank(s, ra, rb))
  {
    var uf, d := s.uf[rb := ra], Rerank(s, ra, rb);
    forall x | 0 <= x < Cells && uf[x] != -1
      ensures 0 <= uf[x] < Cells && d[uf[x]] < d[x]
    {
      if x != rb {
        assert Root(s, uf[x]) == Root(s, x);
      }
    }
  }

  /** After a union, a cell's root is its old root, except that rb's component now has
      root ra. */
  lemma {:induction false} RootAfterUnite(s: UnionState, a: int, b: int, x: int)
    requires Valid(s) && 0 <= a < Cells && 0 <= b < Cells && 0 <= x < Cells
    ensures Root(Unite(s, a, b), x) == if Root(s, x) == Root(s, b) then Root(s, a) else Root(s, x)
    decreases s.dist[x]
  {
    var ra, rb := Root(s, a), Root(s, b);
    var t := Unite(s, a, b);
    if ra != rb {
      if s.uf[x] == -1 {
        if x == rb {
          assert t.uf[rb] == ra && t.uf[ra] == -1;
          assert Root(t, ra) == ra;
        }
      } else {
        RootAfterUnite(s, a, b, s.uf[x]);
        assert t.uf[x] == s.uf[x];
      }
    }
  }

  /** `union_dir`, in place on `uf` and `dirs`. */
  method UnionDir(uf: array<int>, dirs: array<bool>, a: int, b: int, ghost dist: seq<nat>) returns (ghost dist': seq<nat>)
    requires uf.Length == Cells && dirs.Length == Flags && Forest(uf[..], dist)
    requires 0 <= a < Cells && 0 <= b < Cells
    modifies uf, dirs
    ensures var t := Unite(UnionState(old(uf[..]), old(dirs[..]), dist), a, b);
      uf[..] == t.uf && dirs[..] == t.dirs && dist' == t.dist
  {
    ghost var s := UnionState(uf[..], dirs[..], dist);
    var ra := Find(uf[..], dist, a);
    var rb := Find(uf[..], dist, b);
    if ra == rb {
      return dist;
    }
    dist' := Rerank(s, ra, rb);
    uf[rb] := ra;
    JoinFlags(dirs, ra, rb);
  }

  /** The flag updates of `union_dir`: root ra takes the OR of its and rb's flags. */
  method JoinFlags(dirs: array<bool>, ra: int, rb: int)
    requires dirs.Length == Flags && 0 <= ra < Cells && 0 <= rb < Cells && ra != rb
    modifies dirs
    ensures dirs[..] == Joined(old(dirs[..]), ra, rb)
  {
    dirs[ra] := dirs[ra] || dirs[rb];
    dirs[Cells + ra] := dirs[Cells + ra] || dirs[Cells + rb];
    dirs[2 * Cells + ra] := dirs[2 * Cells + ra] || dirs[2 * Cells + rb];
    dirs[3 * Cells + ra] := dirs[3 * Cells + ra] || dirs[3 * Cells + rb];
  }

  /** Some cell x < n of the component with root r has flag d set in `init`. */
  function AnyMember(s: UnionState, init: seq<bool>, d: int, r: int, n: nat): bool
    requires Valid(s) && |init| == Flags && 0 <= d < 4 && n <= Cells
  {
    n > 0 && (AnyMember(s, init, d, r, n - 1) || (Root(s, n - 1) == r && init[Cells * d + n - 1]))
  }

  /** Each root's flag d is the OR of `init`'s flag d over its component. */
  predicate FlagsAreOr(s: UnionState, init: seq<bool>)
    requires Valid(s) && |init| == Flags
  {
    forall d, r :: 0 <= d < 4 && 0 <= r < Cells && s.uf[r] == -1 ==>
      s.dirs[Cells * d + r] == AnyMember(s, init, d, r, Cells)
  }

  /** A witness for `AnyMember`. */
  lemma {:induction false} MemberWitness(s: UnionState, init: seq<bool>, d: int, r: int, n: nat) returns (x: int)
    requires Valid(s) && |init| == Flags && 0 <= d < 4 && n <= Cells
    requires AnyMember(s, init, d, r, n)
    ensures 0 <= x < n && Root(s, x) == r && init[Cells * d + x]
  {
    if AnyMember(s, init, d, r, n - 1) {
      x := MemberWitness(s, init, d, r, n - 1);
    } else {
      x := n - 1;
    }
  }

  /** A member with the flag makes `AnyMember` true. */
  lemma {:induction false} MemberFound(s: UnionState, init: seq<bool>, d: int, r: int, n: nat, x: int)
    requires Valid(s) && |init| == Flags && 0 <= d < 4 && n <= Cells
    requires 0 <= x < n && Root(s, x) == r && init[Cells * d + x]
    ensures AnyMember(s, init, d, r, n)
  {
    if x < n - 1 {
      MemberFound(s, init, d, r, n - 1, x);
    }
  }

  lemma {:induction false} SingletonMembers(init: seq<bool>, d: int, r: int, n: nat)
    requires |init| == Flags && 0 <= d < 4 && 0 <= r < Cells && n <= Cells
    ensures AnyMember(Singletons(init), init, d, r, n) == (r < n && init[Cells * d + r])
  {
    if n > 0 {
      SingletonMembers(init, d, r, n - 1);
    }
  }

  /** Initially each flag is its own cell's flag. */
  lemma SingletonsAreOr(init: seq<bool>)
    requires |init| == Flags
    ensures FlagsAreOr(Singletons(init), init)
  {
    forall d, r | 0 <= d < 4 && 0 <= r < Cells
      ensures AnyMember(Singletons(init), init, d, r, Cells) == init[Cells * d + r]
    {
      SingletonMembers(init, d, r, Cells);
    }
  }

  lemma {:induction false} MembersAfterUnite(s: UnionState, init: seq<bool>, a: int, b: int, d: int, r: int, n: nat)
    requires Valid(s) && |init| == Flags && 0 <= a < Cells && 0 <= b < Cells && 0 <= d < 4 && n <= Cells
    requires Root(s, a) != Root(s, b) && 0 <= r < Cells && r != Root(s, b)
    ensures AnyMember(Unite(s, a, b), init, d, r, n) ==
      if r == Root(s, a) then AnyMember(s, init, d, r, n) || AnyMember(s, init, d, Root(s, b), n)
      else AnyMember(s, init, d, r, n)
  {
    if n > 0 {
      MembersAfterUnite(s, init, a, b, d, r, n - 1);
      RootAfterUnite(s, a, b, n - 1);
    }
  }

  /** `union_dir` keeps every root's flags equal to the OR over its component. */
  lemma UnitePreservesOr(s: UnionState, init: seq<bool>, a: int, b: int)
    requires Valid(s) && |init| == Flags && 0 <= a < Cells && 0 <= b < Cells
    requires FlagsAreOr(s, init)
    ensures FlagsAreOr(Unite(s, a, b), init)
  {
    var ra, rb := Root(s, a), Root(s, b);
    if ra != rb {
      var t := Unite(s, a, b);
      forall d, r | 0 <= d < 4 && 0 <= r < Cells && t.uf[r] == -1
        ensures t.dirs[Cells * d + r] == AnyMember(t, init, d, r, Cells)
      {
        RootFlagAfterUnite(s, init, a, b, d, r);
      }
    }
  }

  /** Flag d of a root after uniting two components is the OR over its new component. */
  lemma RootFlagAfterUnite(s: UnionState, init: seq<bool>, a: int, b: int, d: int, r: int)
    requires Valid(s) && |init| == Flags && 0 <= a < Cells && 0 <= b < Cells && Root(s, a) != Root(s, b)
    requires FlagsAreOr(s, init) && 0 <= d < 4 && 0 <= r < Cells && Unite(s, a, b).uf[r] == -1
    ensures Unite(s, a, b).dirs[Cells * d + r] == AnyMember(Unite(s, a, b), init, d, r, Cells)
  {
    var ra, rb := Root(s, a), Root(s, b);
    var t := Unite(s, a, b);
    assert t.uf == s.uf[rb := ra] && t.dirs == Joined(s.dirs, ra, rb);
    MembersAfterUnite(s, init, a, b, d, r, Cells);
    JoinedAt(s.dirs, ra, rb, d, r);
    assert r != rb && s.uf[r] == -1;
  }
}
