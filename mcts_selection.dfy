/** The last step of `get_move` (mcts/src/mcts_bot.cpp:135-146): walk the visit shares with a
    running total and take the move at the first index where the total exceeds the random
    number r. The number r itself is an input. */
module Selection {
  import opened TakTypes

  /** The sum of a sequence of shares, added from the front. */
  function Total(s: seq<real>): real
  {
    if |s| == 0 then 0.0 else Total(s[..|s| - 1]) + s[|s| - 1]
  }

  /** The running total after the first n shares. */
  function Prefix(s: seq<real>, n: nat): real
    requires n <= |s|
  {
    Total(s[..n])
  }

  /** i is the first index at which the running total exceeds r. */
  predicate FirstAbove(s: seq<real>, r: real, i: int)
  {
    0 <= i < |s| && Prefix(s, i + 1) > r && forall j :: 1 <= j <= i ==> Prefix(s, j) <= r
  }

  lemma PrefixStep(s: seq<real>, n: nat)
    requires n < |s|
    ensures Prefix(s, n + 1) == Prefix(s, n) + s[n]
  {
    assert s[..n + 1][..n] == s[..n];
  }

  /** The selection loop of `get_move`: the move of the first index whose running total
      exceeds r, and no move at all when no index qualifies (the source then returns an
      unset `move_t`). */
  method Choose(shares: seq<real>, moves: seq<Move>, r: real) returns (move: Option<Move>)
    requires |moves| == |shares|
    ensures move.None? <==> forall i :: 0 <= i < |shares| ==> !FirstAbove(shares, r, i)
    ensures forall i :: FirstAbove(shares, r, i) ==> move == Some(moves[i])
  {
    var tot := 0.0;
    for i := 0 to |shares|
      invariant tot == Prefix(shares, i)
      invariant forall j :: 1 <= j <= i ==> Prefix(shares, j) <= r
    {
      PrefixStep(shares, i);
      tot := tot + shares[i];
      if tot > r {
        move := Some(moves[i]);
        assert FirstAbove(shares, r, i);
        return;
      }
    }
    move := None;
  }

  /** Up to m, either some index below m is the first above r or no running total up to m
      exceeds r. */
  lemma {:induction false} ScanTo(s: seq<real>, r: real, m: nat)
    requires m <= |s|
    ensures (exists i :: 0 <= i < m && FirstAbove(s, r, i)) || (forall j :: 1 <= j <= m ==> Prefix(s, j) <= r)
  {
    if m > 0 {
      ScanTo(s, r, m - 1);
      if !(exists i :: 0 <= i < m - 1 && FirstAbove(s, r, i)) && Prefix(s, m) > r {
        assert FirstAbove(s, r, m - 1);
      }
    }
  }

  /** Shares summing to 1 always yield a move for r below 1. */
  lemma ChoiceBelowOne(s: seq<real>, r: real)
    requires Total(s) == 1.0 && r < 1.0
    ensures exists i :: FirstAbove(s, r, i)
  {
    ScanTo(s, r, |s|);
    assert s[..|s|] == s;
    assert Prefix(s, |s|) > r;
  }

  /** With nonnegative shares no running total exceeds the sum. */
  lemma {:induction false} PrefixBelowTotal(s: seq<real>, n: nat)
    requires n <= |s| && forall i :: 0 <= i < |s| ==> s[i] >= 0.0
    ensures Prefix(s, n) <= Total(s)
    decreases |s| - n
  {
    if n < |s| {
      PrefixBelowTotal(s, n + 1);
      PrefixStep(s, n);
    } else {
      assert s[..n] == s;
    }
  }

  /** Nonnegative shares summing to 1 yield no move for r = 1 (or above). */
  lemma ChoiceAtOne(s: seq<real>, r: real)
    requires Total(s) == 1.0 && r >= 1.0 && forall i :: 0 <= i < |s| ==> s[i] >= 0.0
    ensures forall i :: !FirstAbove(s, r, i)
  {
    forall j | 1 <= j <= |s|
      ensures Prefix(s, j) <= r
    {
      PrefixBelowTotal(s, j);
    }
  }

  /** For r >= 0 the chosen share is positive. */
  lemma ChosenPositive(s: seq<real>, r: real, i: int)
    requires FirstAbove(s, r, i) && r >= 0.0
    ensures s[i] > 0.0
  {
    PrefixStep(s, i);
    if i > 0 {
      assert Prefix(s, i) <= r;
    }
  }
}
