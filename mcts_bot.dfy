/** The Monte Carlo tree search of mcts/src/mcts_bot.cpp over the arena of `SearchTree`.
    Node addresses become indices into `nodes`; the methods update the nodes in place as the
    source does. */
module Mcts {
  import opened TakTypes
  import opened Engine
  import opened Moves
  import opened MoveFacts
  import opened Scoring
  import opened OutcomeFacts
  import opened AiModel
  import opened Selection
  import opened SearchTree

  class Tree {
    var nodes: seq<Node>

    ghost predicate Valid()
      reads this
    {
      WellFormed(nodes)
    }

    /** `new_mcts`: a tree holding one uninitialized root for a game that is not over. */
    constructor (game: Game, useAi: bool)
      requires OutcomeOf(game) == IN_PROGRESS
      ensures Valid() && nodes == [Root(game, useAi)]
    {
      nodes := [Root(game, useAi)];
      RootWellFormed(game, useAi);
    }

    /** `init_node`: evaluates x, records its moves, value and priors, and appends one
        child per move. */
    method InitNode(x: nat, e: Evaluator)
      requires Valid() && x < |nodes| && !nodes[x].initialized && KeepsLength(e)
      modifies this
      ensures nodes == Expansion(old(nodes), x, e)
      ensures Valid() && SameNode(nodes[x], old(nodes[x])) && nodes[x].initialized
      ensures nodes[x].first == old(|nodes|) && |nodes[x].moves| > 0
      ensures forall d :: 0 <= d < old(|nodes|) && d != x ==> nodes[d] == old(nodes[d])
    {
      FreshInProgress(nodes, x);
      var nd := nodes[x];
      var validMoves := AvailableMoves(nd.game);
      InProgressHasMoves(nd.game);
      var val, p := Evaluate(nd, validMoves, e);
      ghost var ns0 := nodes;
      var nx := nd.(moves := validMoves, val := val, p := p, first := |nodes|);
      nodes := nodes[x := nx];
      AppendChildren(x, nd, validMoves);
      nodes := nodes[x := nodes[x].(initialized := true)];
      MarkAfterAppend(ns0, x, nx, Children(x, nd, validMoves));
      assert nodes == Expanded(ns0, x, val, p);
      ExpandedDone(ns0, x, e, val, p);
    }

    /** The loop of `init_node` that pushes one fresh child per move onto the arena. */
    method AppendChildren(x: nat, nd: Node, moves: seq<Move>)
      requires forall m :: m in moves ==> m in LegalMoves(nd.game)
      modifies this
      ensures nodes == old(nodes) + Children(x, nd, moves)
    {
      ghost var all := Children(x, nd, moves);
      for i := 0 to |moves|
        invariant nodes == old(nodes) + all[..i]
      {
        var child := NewChild(x, nd, moves[i]);
        assert all[..i + 1] == all[..i] + [child];
        nodes := nodes + [child];
      }
      assert all[..|moves|] == all;
    }

    /** `search`: one step of the tree search from x. A finished node returns minus its
        value and changes nothing; an uninitialized node is expanded and returns minus its
        new value; an expanded node descends into the first child with the largest upper
        confidence bound, stores the running average of that child's value and its extra
        visit, and returns minus the child's result. Nothing outside x's subtree changes,
        and nothing below x's fence but x. */
    method Search(x: nat, lambda: real, e: Evaluator) returns (v: real)
      requires Valid() && x < |nodes| && KeepsLength(e)
      modifies this
      decreases |nodes| - x, 1
      ensures Valid() && SearchPost(old(nodes), nodes, x, lambda, e, v)
    {
      assert NodeOk(nodes, x);
      if nodes[x].ended {
        v := -nodes[x].val;
        EndedPost(nodes, x, lambda, e);
      } else if !nodes[x].initialized {
        ghost var ns0 := nodes;
        InitNode(x, e);
        v := -nodes[x].val;
        ExpandedPost(ns0, nodes, x, lambda, e);
      } else {
        v := Descend(x, lambda, e);
      }
    }

    /** The expanded case of `search`: picks the first child with the largest upper
        confidence bound, searches it, and stores the running average and the visit. */
    method Descend(x: nat, lambda: real, e: Evaluator) returns (v: real)
      requires Valid() && x < |nodes| && KeepsLength(e) && nodes[x].initialized && !nodes[x].ended
      modifies this
      decreases |nodes| - x, 0
      ensures Valid() && SearchPost(old(nodes), nodes, x, lambda, e, v)
    {
      ghost var ns0 := nodes;
      ExpandedHasChildren(nodes, x);
      var nd := nodes[x];
      var best := BestChild(x, lambda, e.conf);
      var c := nd.first + best;
      ChildFence(nodes, x, c);
      var w := Search(c, lambda, e);
      DescendStep(ns0, nodes, x, best, lambda, e, w);
      nodes := Averaged(nodes, c, w);
      v := -w;
    }

    /** The selection loop of `search`: the first child of x whose bound -val + lambda *
        P[i] * conf(N) is largest, comparing with a strict `>` from minus infinity. */
    method BestChild(x: nat, lambda: real, conf: nat -> real) returns (best: nat)
      requires Valid() && x < |nodes| && nodes[x].initialized && !nodes[x].ended && |nodes[x].moves| > 0
      ensures FirstMax(Ucbs(nodes, x, lambda, conf), best)
    {
      assert NodeOk(nodes, x);
      var nd := nodes[x];
      ghost var u := Ucbs(nodes, x, lambda, conf);
      best := 0;
      var maxUcb: Option<real> := None;
      for i := 0 to |nd.moves|
        invariant maxUcb.None? <==> i == 0
        invariant i > 0 ==> (best < i && maxUcb == Some(u[best]) &&
          (forall j :: 0 <= j < best ==> u[j] < u[best]) && (forall j :: best < j < i ==> u[j] <= u[best]))
      {
        UcbAt(nodes, x, lambda, conf, i);
        var child := nodes[nd.first + i];
        var ucb := Bound(child, nd.p[i], lambda, conf);
        if maxUcb.None? || ucb > maxUcb.value {
          maxUcb := Some(ucb);
          best := i;
        }
      }
    }

    /** The search loop of `get_move`: `count` searches from x. From a node that is already
        expanded each one adds a visit below x; from an uninitialized node the first one
        only expands it, so k >= 1 searches leave k - 1 visits. */
    method Repeat(x: nat, count: nat, e: Evaluator)
      requires Valid() && x < |nodes| && KeepsLength(e) && !nodes[x].ended
      modifies this
      ensures Valid() && Repeated(old(nodes), nodes, x, count)
    {
      ghost var ns0 := nodes;
      assert NodeOk(nodes, x);
      for i := 0 to count
        invariant Valid() && Repeated(ns0, nodes, x, i)
      {
        ghost var before := nodes;
        var v := Search(x, 1.0, e);
        RepeatStep(ns0, before, nodes, x, i, e, v);
      }
    }

    /** `get_prob`: the visit share N_i / N_tot of each child of x; the source asserts
        N_tot != 0. */
    method GetProb(x: nat) returns (p: seq<real>)
      requires Valid() && x < |nodes| && VisitSum(nodes, x) > 0
      ensures p == Shares(nodes, x)
    {
      assert NodeOk(nodes, x);
      var nd := nodes[x];
      var total := 0;
      for i := 0 to |nd.moves|
        invariant total == Visits(nodes, nd.first, nd.first + i)
      {
        total := total + nodes[nd.first + i].n;
      }
      assert total == VisitSum(nodes, x);
      p := [];
      for i := 0 to |nd.moves|
        invariant p == Shares(nodes, x)[..i]
      {
        p := p + [(nodes[nd.first + i].n as real) / (total as real)];
      }
      assert Shares(nodes, x)[..|nd.moves|] == Shares(nodes, x);
    }

    /** `get_move` with the random number r given: `repetitions` searches from x, then the
        move of the first child whose running visit share exceeds r, or none. The source's
        asserts after the searches and in `get_prob` need x expanded with a visit below it,
        which the precondition on `repetitions` guarantees. */
    method GetMove(x: nat, repetitions: nat, r: real, e: Evaluator) returns (move: Option<Move>)
      requires Valid() && x < |nodes| && KeepsLength(e) && !nodes[x].ended
      requires if nodes[x].initialized then VisitSum(nodes, x) + repetitions > 0 else repetitions >= 2
      modifies this
      ensures Valid() && Repeated(old(nodes), nodes, x, repetitions)
      ensures x < |nodes| && nodes[x].initialized && VisitSum(nodes, x) > 0
      ensures move.None? <==> forall i :: 0 <= i < |nodes[x].moves| ==> !FirstAbove(Shares(nodes, x), r, i)
      ensures forall i :: FirstAbove(Shares(nodes, x), r, i) ==> move == Some(nodes[x].moves[i])
    {
      Repeat(x, repetitions, e);
      assert NodeOk(nodes, x);
      var p := GetProb(x);
      move := Choose(p, nodes[x].moves, r);
    }

    /** `mcts_apply_move`: expands x if needed and returns the first child whose move is
        `move_eq` to `move`; that child holds the game after `move`. The source asserts
        that some child matches. */
    method PlayMove(x: nat, move: Move, e: Evaluator) returns (c: nat)
      requires Valid() && x < |nodes| && KeepsLength(e) && !nodes[x].ended
      requires exists m :: m in LegalMoves(nodes[x].game) && MoveEq(move, m)
      modifies this
      ensures Valid() && x < |nodes| && nodes[x].initialized && SameNode(nodes[x], old(nodes[x]))
      ensures old(nodes[x].initialized) ==> nodes == old(nodes)
      ensures !old(nodes[x].initialized) ==> nodes == Expansion(old(nodes), x, e)
      ensures nodes[x].first <= c < nodes[x].first + |nodes[x].moves| && c < |nodes|
      ensures MoveEq(move, nodes[x].moves[c - nodes[x].first])
      ensures forall i :: 0 <= i < c - nodes[x].first ==> !MoveEq(move, nodes[x].moves[i])
      ensures nodes[c].parent == Some(x) && MoveDefined(nodes[x].game, move) && nodes[c].game == Apply(nodes[x].game, move)
    {
      if !nodes[x].initialized {
        InitNode(x, e);
      }
      assert NodeOk(nodes, x);
      c := FindChild(x, move);
    }

    /** The loop of `mcts_apply_move` over the children of the expanded node x. */
    method FindChild(x: nat, move: Move) returns (c: nat)
      requires Valid() && x < |nodes| && nodes[x].initialized && !nodes[x].ended
      requires exists m :: m in LegalMoves(nodes[x].game) && MoveEq(move, m)
      ensures nodes[x].first <= c < nodes[x].first + |nodes[x].moves| && c < |nodes|
      ensures MoveEq(move, nodes[x].moves[c - nodes[x].first])
      ensures forall i :: 0 <= i < c - nodes[x].first ==> !MoveEq(move, nodes[x].moves[i])
      ensures nodes[c].parent == Some(x) && MoveDefined(nodes[x].game, move) && nodes[c].game == Apply(nodes[x].game, move)
    {
      var nd := nodes[x];
      ghost var m0 :| m0 in LegalMoves(nd.game) && MoveEq(move, m0);
      MovesLegal(nodes, x);
      ghost var k :| 0 <= k < |nd.moves| && nd.moves[k] == m0;
      for i := 0 to |nd.moves|
        invariant forall j :: 0 <= j < i ==> !MoveEq(move, nd.moves[j])
      {
        var m := nd.moves[i];
        if MoveEq(move, m) {
          c := nd.first + i;
          MatchedChild(nodes, x, i, move);
          return;
        }
      }
      assert false;
    }

    /** `write_results`: from the parent of the final node x up to the root, each node gets
        the final value, negated at every step up starting from minus x's value, and is
        recorded. The record stands for the JSON object the source writes. */
    method WriteResults(x: nat) returns (records: seq<(nat, real)>)
      requires Valid() && x < |nodes|
      modifies this
      ensures Valid() && |nodes| == old(|nodes|)
      ensures records == FinalRecords(old(nodes), x)
      ensures WrittenBy(old(nodes), nodes, records)
    {
      assert NodeOk(nodes, x);
      if nodes[x].parent.Some? {
        assert NodeOk(nodes, nodes[x].parent.value);
      }
      records := WriteFrom(nodes[x].parent, -nodes[x].val);
    }

    /** `write_results_r`: writes v into node y, records it, and goes on with the parent
        and -v. */
    method WriteFrom(y: Option<nat>, v: real) returns (records: seq<(nat, real)>)
      requires Valid() && (y.Some? ==> y.value < |nodes| && |nodes[y.value].moves| > 0)
      modifies this
      decreases if y.Some? then y.value + 1 else 0
      ensures Valid() && |nodes| == old(|nodes|)
      ensures records == Records(old(nodes), y, v)
      ensures forall n :: 0 <= n < |records| ==> y.Some? && records[n].0 <= y.value
      ensures WrittenBy(old(nodes), nodes, records)
    {
      if y.None? {
        return [];
      }
      var z := y.value;
      ghost var ns0 := nodes;
      WriteStarts(nodes, z, v);
      nodes := nodes[z := nodes[z].(val := v)];
      var parent := nodes[z].parent;
      ghost var ns1 := nodes;
      var rest := WriteFrom(parent, -v);
      WriteKeepsParents(ns0, z, v);
      RecordsStep(ns0, ns1, z, v);
      WriteEnds(ns0, nodes, z, v, if parent.Some? then parent.value else -1, rest);
      records := [(z, v)] + rest;
    }

    /** The evaluation part of `init_node`: the network's value and the softmax of the
        policy entries of the moves when the node uses the network, and otherwise the
        heuristic value with equal priors 1 / |moves|. */
    static method Evaluate(nd: Node, validMoves: seq<Move>, e: Evaluator) returns (val: real, p: seq<real>)
      requires validMoves == LegalMoves(nd.game) && |validMoves| > 0
      ensures (val, p) == Evaluation(nd, e)
    {
      if nd.useAi {
        LegalInLayout(nd.game);
        val, p := GetEval(e.net, e.softmax, nd.game, validMoves, []);
        assert [] + Picked(e.net(Encoded(nd.game.board)).1, validMoves) == Picked(e.net(Encoded(nd.game.board)).1, validMoves);
      } else {
        var share := 1.0 / (|validMoves| as real);
        p := seq(|validMoves|, _ => share);
        val := e.tiles(nd.game);
      }
    }

    /** The child `init_node` builds for move m of the node nd at index x: the game after
        m, with the terminal bookkeeping of the outcome switch. */
    static method NewChild(x: nat, nd: Node, m: Move) returns (child: Node)
      requires m in LegalMoves(nd.game)
      ensures child == FreshChild(x, nd, m)
    {
      LegalMovesMember(nd.game, m);
      LegalIsDefined(nd.game, m);
      var g := ApplyMove(nd.game, m);
      child := Node(g, 0.0, [], [], 0, false, false, 0, Some(x), nd.useAi);
      var outcome := GameOutcome(g);
      match outcome {
        case IN_PROGRESS =>
        case P1_WIN =>
          child := child.(ended := true, val := if g.turn == 1 then 1.0 else -1.0, initialized := true);
        case P2_WIN =>
          child := child.(ended := true, val := if g.turn == 2 then 1.0 else -1.0, initialized := true);
        case TIE =>
          child := child.(ended := true, val := 0.0, initialized := true);
      }
    }
  }
}
