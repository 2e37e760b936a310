/** The search tree of mcts/src/mcts_bot.cpp laid out as an arena. Node x's children (the
    `children` vector of `mcts_node_t`) are the |moves| consecutive nodes starting at index
    `first`, and `parent` is an index. This module holds the node record, the tree invariant,
    and the functions and lemmas the search methods are proved against. */
module SearchTree {
  import opened TakTypes
  import opened Engine
  import opened Moves
  import opened MoveFacts
  import opened Scoring
  import opened OutcomeFacts
  import opened AiModel
  import opened Selection

  /** `mcts_node_t` without its model handle. A node without moves owns no block of
      children. The visit count only ever grows from 0, so it is a `nat`. */
  datatype Node = Node(game: Game, val: real, moves: seq<Move>, p: seq<real>, n: nat,
                       initialized: bool, ended: bool, first: nat, parent: Option<nat>, useAi: bool)

  /** The value `init_node` gives a finished child: 1 when the player to move in it has
      the win, -1 when the other player has, 0 for a tie. */
  function TerminalVal(g: Game): real
  {
    match OutcomeOf(g)
    case P1_WIN => if g.turn == 1 then 1.0 else -1.0
    case P2_WIN => if g.turn == 2 then 1.0 else -1.0
    case _ => 0.0
  }

  /** The player an outcome declares the winner, 0 for none. */
  function Winner(o: Outcome): int
  {
    match o
    case P1_WIN => 1
    case P2_WIN => 2
    case _ => 0
  }

  /** The child `init_node` pushes for move m of node `nd`, which sits at index x. */
  function FreshChild(x: nat, nd: Node, m: Move): (c: Node)
    requires m in LegalMoves(nd.game)
    ensures MoveDefined(nd.game, m) && c.game == Apply(nd.game, m)
  {
    LegalMovesMember(nd.game, m);
    LegalIsDefined(nd.game, m);
    var g := Apply(nd.game, m);
    var over := OutcomeOf(g) != IN_PROGRESS;
    Node(g, if over then TerminalVal(g) else 0.0, [], [], 0, over, over, 0, Some(x), nd.useAi)
  }

  /** A fresh child is finished exactly when its game is over, and then it is marked
      initialized with value 1 if the player to move in it won, -1 if the other player won,
      and 0 for a tie; an unfinished child starts uninitialized with value 0. Either way it
      has no visits and no children. */
  lemma FreshChildState(x: nat, nd: Node, m: Move)
    requires m in LegalMoves(nd.game)
    ensures var c := FreshChild(x, nd, m); var o := OutcomeOf(c.game);
      c.game == Apply(nd.game, m) && c.parent == Some(x) && c.useAi == nd.useAi &&
      c.n == 0 && c.moves == [] &&
      (c.ended <==> o != IN_PROGRESS) && c.initialized == c.ended &&
      (c.val == 1.0 <==> c.ended && Winner(o) != 0 && Winner(o) == c.game.turn as int) &&
      (c.val == -1.0 <==> c.ended && Winner(o) != 0 && Winner(o) != c.game.turn as int) &&
      (c.val == 0.0 <==> !c.ended || o == TIE)
  {
  }

  lemma FreshChildEmpty(x: nat, nd: Node, m: Move)
    requires m in LegalMoves(nd.game)
    ensures var c := FreshChild(x, nd, m);
      c.n == 0 && c.moves == [] && c.first == 0 && c.parent == Some(x) && c.useAi == nd.useAi
  {
  }

  /** The children `init_node` pushes, in move order. */
  function Children(x: nat, nd: Node, moves: seq<Move>): (cs: seq<Node>)
    requires forall m :: m in moves ==> m in LegalMoves(nd.game)
    ensures |cs| == |moves| && forall i :: 0 <= i < |moves| ==> cs[i] == FreshChild(x, nd, moves[i])
  {
    seq(|moves|, i requires 0 <= i < |moves| => FreshChild(x, nd, moves[i]))
  }

  /** The arena after `init_node` on x with evaluation `val` and priors `p`: x records its
      moves, value and priors and becomes initialized, and its children are appended. */
  function Expanded(ns: seq<Node>, x: nat, val: real, p: seq<real>): (ns': seq<Node>)
    requires x < |ns|
    ensures |ns'| == |ns| + |LegalMoves(ns[x].game)|
  {
    var nd := ns[x];
    var moves := LegalMoves(nd.game);
    ns[x := nd.(moves := moves, val := val, p := p, first := |ns|, initialized := true)] + Children(x, nd, moves)
  }

  /** Where `init_node` puts things: x is rewritten, the other old nodes stay, and child
      c - |ns| of x sits at c. */
  lemma ExpandedLayout(ns: seq<Node>, x: nat, val: real, p: seq<real>)
    requires x < |ns|
    ensures var ns' := Expanded(ns, x, val, p); var nd := ns[x]; var moves := LegalMoves(nd.game);
      ns'[x] == nd.(moves := moves, val := val, p := p, first := |ns|, initialized := true) &&
      (forall d :: 0 <= d < |ns| && d != x ==> ns'[d] == ns[d]) &&
      (forall c :: |ns| <= c < |ns'| ==> ns'[c] == FreshChild(x, nd, moves[c - |ns|]))
  {
    ExpandedFront(ns, x, val, p);
    ExpandedBack(ns, x, val, p);
  }

  /** The old part of the arena after `init_node`. */
  lemma ExpandedFront(ns: seq<Node>, x: nat, val: real, p: seq<real>)
    requires x < |ns|
    ensures var ns' := Expanded(ns, x, val, p); var nd := ns[x];
      ns'[x] == nd.(moves := LegalMoves(nd.game), val := val, p := p, first := |ns|, initialized := true) &&
      forall d :: 0 <= d < |ns| && d != x ==> ns'[d] == ns[d]
  {
    var nd := ns[x];
    var moves := LegalMoves(nd.game);
    var front := ns[x := nd.(moves := moves, val := val, p := p, first := |ns|, initialized := true)];
    assert Expanded(ns, x, val, p)[..|ns|] == front;
  }

  /** The appended part of the arena after `init_node`. */
  lemma ExpandedBack(ns: seq<Node>, x: nat, val: real, p: seq<real>)
    requires x < |ns|
    ensures var ns' := Expanded(ns, x, val, p); var nd := ns[x]; var moves := LegalMoves(nd.game);
      forall c :: |ns| <= c < |ns'| ==> ns'[c] == FreshChild(x, nd, moves[c - |ns|])
  {
    var nd := ns[x];
    var moves := LegalMoves(nd.game);
    var cs := Children(x, nd, moves);
    assert Expanded(ns, x, val, p)[|ns|..] == cs;
  }

  /** Everything the search is given from outside: the network and its softmax used by
      `get_eval`, the heuristic `tiles_eval`, and the confidence factor of a visit count
      (`sqrtf(1 / (1 + N))`). */
  datatype Evaluator = Evaluator(net: seq<real> -> (real, Policy), softmax: seq<real> -> seq<real>,
                                 tiles: Game -> real, conf: nat -> real)

  /** The softmax gives one probability per input. */
  ghost predicate KeepsLength(e: Evaluator)
  {
    forall s :: |e.softmax(s)| == |s|
  }

  lemma LegalInLayout(g: Game)
    ensures forall m :: m in LegalMoves(g) ==> InLayout(SlotOf(m))
  {
    forall m | m in LegalMoves(g)
      ensures InLayout(SlotOf(m))
    {
      LegalSlots(g, m, m);
    }
  }

  /** The value and priors `init_node` stores: the network's value and the softmax of the
      policy entries of the moves, or the heuristic value and equal priors. */
  function Evaluation(nd: Node, e: Evaluator): (r: (real, seq<real>))
    requires |LegalMoves(nd.game)| > 0
  {
    var moves := LegalMoves(nd.game);
    if nd.useAi then
      LegalInLayout(nd.game);
      var out := e.net(Encoded(nd.game.board));
      (out.0, e.softmax(Picked(out.1, moves)))
    else
      (e.tiles(nd.game), seq(|moves|, _ => 1.0 / (|moves| as real)))
  }

  /** The tree invariant at node x:
      - a parent comes earlier and holds x in its block of children;
      - the block of children lies after x inside the arena, every child points back to x
        and inherits `use_ai`, and a child's own block lies after all its siblings;
      - an uninitialized node is unfinished, unvisited and childless;
      - a finished node is initialized, childless, and holds its terminal value;
      - an initialized unfinished node holds the legal moves, one prior per move, and its
        i-th child holds the game after its i-th move. */
  ghost predicate NodeOk(ns: seq<Node>, x: nat)
    requires x < |ns|
  {
    Linked(ns, x) && Staged(ns[x]) && Successors(ns, x)
  }

  /** The parent and block links of node x. */
  ghost predicate Linked(ns: seq<Node>, x: nat)
    requires x < |ns|
  {
    var nd := ns[x];
    var k := |nd.moves|;
    nd.first + k <= |ns| &&
    (k > 0 ==> x < nd.first) &&
    (nd.parent.Some? ==> nd.parent.value < x && ns[nd.parent.value].first <= x < ns[nd.parent.value].first + |ns[nd.parent.value].moves|) &&
    (forall c :: nd.first <= c < nd.first + k ==>
      ns[c].parent == Some(x) && ns[c].useAi == nd.useAi && (|ns[c].moves| > 0 ==> nd.first + k <= ns[c].first))
  }

  /** The state of a node on its own. */
  ghost predicate Staged(nd: Node)
  {
    var k := |nd.moves|;
    (!nd.initialized ==> !nd.ended && k == 0 && nd.n == 0 && OutcomeOf(nd.game) == IN_PROGRESS) &&
    (nd.ended ==> nd.initialized && k == 0 && OutcomeOf(nd.game) != IN_PROGRESS && nd.val == TerminalVal(nd.game)) &&
    (nd.initialized && !nd.ended ==>
      OutcomeOf(nd.game) == IN_PROGRESS && nd.moves == LegalMoves(nd.game) && |nd.p| == k &&
      forall i :: 0 <= i < k ==> MoveDefined(nd.game, nd.moves[i]))
  }

  /** The children of an expanded node hold the games after its moves. */
  ghost predicate Successors(ns: seq<Node>, x: nat)
    requires x < |ns|
  {
    var nd := ns[x];
    nd.initialized && !nd.ended && nd.first + |nd.moves| <= |ns| ==>
      Follows(nd.game, nd.moves, Games(ns, nd.first, |nd.moves|))
  }

  /** The games of the k nodes from lo on. */
  ghost function Games(ns: seq<Node>, lo: nat, k: nat): (gs: seq<Game>)
    requires lo + k <= |ns|
    ensures |gs| == k && forall i :: 0 <= i < k ==> gs[i] == ns[lo + i].game
  {
    seq(k, i requires 0 <= i < k => ns[lo + i].game)
  }

  /** Move i leads from g to game i of gs. */
  ghost predicate Follows(g: Game, moves: seq<Move>, gs: seq<Game>)
  {
    |gs| == |moves| && forall i :: 0 <= i < |moves| ==> Leads(g, moves[i], gs[i])
  }

  /** Move m is defined in g and leads to h. */
  ghost predicate Leads(g: Game, m: Move, h: Game)
  {
    MoveDefined(g, m) && h == Apply(g, m)
  }

  ghost predicate WellFormed(ns: seq<Node>)
  {
    forall x :: 0 <= x < |ns| ==> NodeOk(ns, x)
  }

  /** The tree `new_mcts` builds: a lone uninitialized root. */
  function Root(g: Game, useAi: bool): Node
  {
    Node(g, 0.0, [], [], 0, false, false, 0, None, useAi)
  }

  lemma RootWellFormed(g: Game, useAi: bool)
    requires OutcomeOf(g) == IN_PROGRESS
    ensures WellFormed([Root(g, useAi)])
  {
    assert NodeOk([Root(g, useAi)], 0);
  }

  /** `init_node` on x under evaluator e. */
  function Expansion(ns: seq<Node>, x: nat, e: Evaluator): (ns': seq<Node>)
    requires WellFormed(ns) && x < |ns| && !ns[x].initialized
  {
    assert NodeOk(ns, x);
    InProgressHasMoves(ns[x].game);
    var ev := Evaluation(ns[x], e);
    Expanded(ns, x, ev.0, ev.1)
  }

  /** A node not yet expanded holds a game in progress. */
  lemma FreshInProgress(ns: seq<Node>, x: nat)
    requires WellFormed(ns) && x < |ns| && !ns[x].initialized
    ensures OutcomeOf(ns[x].game) == IN_PROGRESS
  {
    assert NodeOk(ns, x);
  }

  /** The arena `init_node` builds from the node's own evaluation is the expansion of x,
      with everything `ExpansionValid` says of it. */
  lemma ExpandedDone(ns: seq<Node>, x: nat, e: Evaluator, val: real, p: seq<real>)
    requires WellFormed(ns) && x < |ns| && !ns[x].initialized && KeepsLength(e) && |LegalMoves(ns[x].game)| > 0
    requires (val, p) == Evaluation(ns[x], e)
    ensures var ns' := Expanded(ns, x, val, p);
      ns' == Expansion(ns, x, e) &&
      WellFormed(ns') && SameNode(ns'[x], ns[x]) && ns'[x].initialized &&
      ns'[x].first == |ns| && |ns'[x].moves| > 0 &&
      forall d :: 0 <= d < |ns| && d != x ==> ns'[d] == ns[d]
  {
    assert Expansion(ns, x, e) == Expanded(ns, x, val, p);
    ExpansionValid(ns, x, e);
  }

  /** Marking x after the children were appended is marking it before. */
  lemma MarkAfterAppend(ns: seq<Node>, x: nat, nx: Node, cs: seq<Node>)
    requires x < |ns|
    ensures var t := ns[x := nx] + cs;
      t[x := t[x].(initialized := true)] == ns[x := nx.(initialized := true)] + cs
  {
    var t := ns[x := nx] + cs;
    assert t[x] == nx;
  }

  /** The fields the search never changes at the node it runs on. */
  predicate SameNode(a: Node, b: Node)
  {
    a.game == b.game && a.parent == b.parent && a.useAi == b.useAi && a.n == b.n && a.ended == b.ended
  }

  /** Expansion keeps the tree invariant, keeps x's identity, and leaves every old node
      other than x as it was. */
  lemma ExpansionValid(ns: seq<Node>, x: nat, e: Evaluator)
    requires WellFormed(ns) && x < |ns| && !ns[x].initialized && KeepsLength(e)
    ensures var ns' := Expansion(ns, x, e);
      WellFormed(ns') && |ns'| > |ns| && ns'[x].initialized && SameNode(ns'[x], ns[x]) &&
      ns'[x].first == |ns| && |ns'[x].moves| > 0 &&
      forall d :: 0 <= d < |ns| && d != x ==> ns'[d] == ns[d]
  {
    assert NodeOk(ns, x);
    InProgressHasMoves(ns[x].game);
    var ev := Evaluation(ns[x], e);
    if ns[x].useAi {
      LegalInLayout(ns[x].game);
    }
    assert |ev.1| == |LegalMoves(ns[x].game)|;
    ExpandedValid(ns, x, ev.0, ev.1);
  }

  lemma ExpandedValid(ns: seq<Node>, x: nat, val: real, p: seq<real>)
    requires WellFormed(ns) && x < |ns| && !ns[x].initialized && |p| == |LegalMoves(ns[x].game)|
    ensures WellFormed(Expanded(ns, x, val, p))
  {
    var ns' := Expanded(ns, x, val, p);
    forall y | 0 <= y < |ns'|
      ensures NodeOk(ns', y)
    {
      if y == x {
        ExpandedAtRoot(ns, x, val, p);
      } else if y < |ns| {
        ExpandedAtOld(ns, x, val, p, y);
      } else {
        ExpandedAtChild(ns, x, val, p, y);
      }
    }
  }

  lemma ExpandedAtRoot(ns: seq<Node>, x: nat, val: real, p: seq<real>)
    requires WellFormed(ns) && x < |ns| && !ns[x].initialized && |p| == |LegalMoves(ns[x].game)|
    ensures NodeOk(Expanded(ns, x, val, p), x)
  {
    assert NodeOk(ns, x);
    InProgressHasMoves(ns[x].game);
    var ns' := Expanded(ns, x, val, p);
    var nd := ns[x];
    var k := |LegalMoves(nd.game)|;
    ExpandedLayout(ns, x, val, p);
    if nd.parent.Some? {
      assert ns'[nd.parent.value] == ns[nd.parent.value];
    }
    forall i | 0 <= i < k
      ensures ns'[|ns| + i].game == Apply(nd.game, LegalMoves(nd.game)[i])
    {
      assert ns'[|ns| + i] == FreshChild(x, nd, LegalMoves(nd.game)[i]);
    }
  }

  lemma ExpandedAtOld(ns: seq<Node>, x: nat, val: real, p: seq<real>, y: nat)
    requires WellFormed(ns) && x < |ns| && !ns[x].initialized && |p| == |LegalMoves(ns[x].game)|
    requires y < |ns| && y != x
    ensures NodeOk(Expanded(ns, x, val, p), y)
  {
    assert NodeOk(ns, x);
    assert NodeOk(ns, y);
    ExpandedFront(ns, x, val, p);
    OldNodeOk(ns, Expanded(ns, x, val, p), x, y);
  }

  /** The old part of `ns'` matches `ns` except at the childless node x, which keeps its
      game, parent and `use_ai` and whose new block lies past the old arena. */
  ghost predicate Conforms(ns: seq<Node>, ns': seq<Node>, x: nat)
  {
    x < |ns| <= |ns'| && |ns[x].moves| == 0 &&
    ns'[x].game == ns[x].game && ns'[x].parent == ns[x].parent && ns'[x].useAi == ns[x].useAi &&
    |ns| <= ns'[x].first &&
    forall d :: 0 <= d < |ns| && d != x ==> ns'[d] == ns[d]
  }

  /** The invariant at an old node other than x survives such a change. */
  lemma OldNodeOk(ns: seq<Node>, ns': seq<Node>, x: nat, y: nat)
    requires Conforms(ns, ns', x) && y < |ns| && y != x && NodeOk(ns, y)
    ensures NodeOk(ns', y)
  {
    assert ns'[y] == ns[y];
    OldLinked(ns, ns', x, y);
    OldSuccessors(ns, ns', x, y);
  }

  lemma OldLinked(ns: seq<Node>, ns': seq<Node>, x: nat, y: nat)
    requires Conforms(ns, ns', x) && y < |ns| && y != x && Linked(ns, y)
    ensures Linked(ns', y)
  {
    var nd := ns[y];
    assert ns'[y] == nd;
    if nd.parent.Some? {
      assert ns'[nd.parent.value] == ns[nd.parent.value];
    }
    var k := |nd.moves|;
    forall c | nd.first <= c < nd.first + k
      ensures ns'[c].parent == Some(y) && ns'[c].useAi == nd.useAi
      ensures |ns'[c].moves| > 0 ==> nd.first + k <= ns'[c].first
    {
      if c != x {
        assert ns'[c] == ns[c];
      }
    }
  }

  lemma OldSuccessors(ns: seq<Node>, ns': seq<Node>, x: nat, y: nat)
    requires Conforms(ns, ns', x) && y < |ns| && y != x && Linked(ns, y) && Successors(ns, y)
    ensures Successors(ns', y)
  {
    var nd := ns[y];
    assert ns'[y] == nd;
    var k := |nd.moves|;
    assert Games(ns', nd.first, k) == Games(ns, nd.first, k);
  }

  lemma ExpandedAtChild(ns: seq<Node>, x: nat, val: real, p: seq<real>, y: nat)
    requires WellFormed(ns) && x < |ns| && !ns[x].initialized && |p| == |LegalMoves(ns[x].game)|
    requires |ns| <= y < |Expanded(ns, x, val, p)|
    ensures NodeOk(Expanded(ns, x, val, p), y)
  {
    var ns' := Expanded(ns, x, val, p);
    var nd := ns[x];
    var m := LegalMoves(nd.game)[y - |ns|];
    ExpandedLayout(ns, x, val, p);
    FreshChildOk(ns', x, y, nd, m);
  }

  /** A fresh child in its parent's block satisfies the invariant. */
  lemma FreshChildOk(ns: seq<Node>, x: nat, y: nat, nd: Node, m: Move)
    requires x < y < |ns| && m in LegalMoves(nd.game) && ns[y] == FreshChild(x, nd, m)
    requires ns[x].first <= y < ns[x].first + |ns[x].moves|
    ensures NodeOk(ns, y)
  {
    var c := FreshChild(x, nd, m);
    assert c.moves == [] && c.parent == Some(x);
    assert c.ended ==> c.initialized && OutcomeOf(c.game) != IN_PROGRESS && c.val == TerminalVal(c.game);
    assert !c.initialized ==> !c.ended && c.n == 0 && OutcomeOf(c.game) == IN_PROGRESS;
  }

  /** Rewriting the value and the visit count of a node keeps the tree invariant as long as
      a finished node keeps its value and an uninitialized one keeps no visits. */
  lemma RevaluedValid(ns: seq<Node>, c: nat, v: real, n: nat)
    requires WellFormed(ns) && c < |ns|
    requires ns[c].ended ==> v == ns[c].val
    requires !ns[c].initialized ==> n == 0
    ensures WellFormed(ns[c := ns[c].(val := v, n := n)])
  {
    var ns' := ns[c := ns[c].(val := v, n := n)];
    forall y | 0 <= y < |ns'|
      ensures NodeOk(ns', y)
    {
      assert NodeOk(ns, y);
      var nd := ns[y];
      if nd.parent.Some? {
        assert ns'[nd.parent.value].first == ns[nd.parent.value].first;
        assert ns'[nd.parent.value].moves == ns[nd.parent.value].moves;
      }
      forall d | nd.first <= d < nd.first + |nd.moves|
        ensures ns'[d].parent == ns[d].parent && ns'[d].useAi == ns[d].useAi && ns'[d].game == ns[d].game
        ensures ns'[d].moves == ns[d].moves && ns'[d].first == ns[d].first
      {
      }
    }
  }

  /** The running average `search` stores leaves a finished child's value alone: its search
      returns minus its value. */
  lemma AverageFixed(n: nat, t: real)
    ensures ((n as real) * t - -t) / ((n as real) + 1.0) == t
  {
    assert (n as real) * t + t == ((n as real) + 1.0) * t;
  }

  /** Past the nodes x's search may change: its block of children, or the end of the arena
      when it has none. */
  function Fence(ns: seq<Node>, x: nat): nat
    requires x < |ns|
  {
    if |ns[x].moves| > 0 then ns[x].first else |ns|
  }

  /** The arena grew and every node other than x below the fence is unchanged. */
  ghost predicate Kept(ns: seq<Node>, ns': seq<Node>, x: nat, fence: int)
  {
    |ns| <= |ns'| && forall d :: 0 <= d < |ns| && d != x && d < fence ==> ns'[d] == ns[d]
  }

  /** d is c or lies below c: following parent links up from d reaches c. */
  ghost predicate Under(ns: seq<Node>, d: nat, c: nat)
    decreases d
  {
    d == c || (d < |ns| && ns[d].parent.Some? && ns[d].parent.value < d && Under(ns, ns[d].parent.value, c))
  }

  /** Whatever lies below a child of x lies below x. */
  lemma {:induction false} UnderChild(ns: seq<Node>, d: nat, c: nat, x: nat)
    requires c < |ns| && ns[c].parent == Some(x) && x < c && Under(ns, d, c)
    ensures Under(ns, d, x)
    decreases d
  {
    if d == c {
      assert Under(ns, x, x);
    } else {
      UnderChild(ns, ns[d].parent.value, c, x);
    }
  }

  /** A node lies below c only if it comes at or after c in the arena. */
  lemma {:induction false} UnderAfter(ns: seq<Node>, d: nat, c: nat)
    requires Under(ns, d, c)
    ensures c <= d
    decreases d
  {
    if d != c {
      UnderAfter(ns, ns[d].parent.value, c);
    }
  }

  /** The subtrees of two distinct children of x share no node. */
  lemma {:induction false} SubtreesApart(ns: seq<Node>, d: nat, c: nat, c': nat, x: nat)
    requires c < |ns| && c' < |ns| && c != c'
    requires ns[c].parent == Some(x) && ns[c'].parent == Some(x) && x < c && x < c'
    requires Under(ns, d, c')
    ensures !Under(ns, d, c)
    decreases d
  {
    if d == c' {
      if Under(ns, c', c) {
        UnderAfter(ns, x, c);
      }
    } else if d == c {
      UnderAfter(ns, x, c');
    } else {
      SubtreesApart(ns, ns[d].parent.value, c, c', x);
    }
  }

  /** An expanded unfinished node has children, all inside the arena. */
  lemma ExpandedHasChildren(ns: seq<Node>, x: nat)
    requires WellFormed(ns) && x < |ns| && ns[x].initialized && !ns[x].ended
    ensures 0 < |ns[x].moves| && ns[x].first + |ns[x].moves| <= |ns|
  {
    assert NodeOk(ns, x);
    InProgressHasMoves(ns[x].game);
  }

  /** A child of x lies past x, points back to x, and fences off everything its search may
      change from x's other children. */
  lemma ChildFence(ns: seq<Node>, x: nat, c: nat)
    requires WellFormed(ns) && x < |ns|
    requires ns[x].first <= c < ns[x].first + |ns[x].moves|
    ensures x < c < |ns| && ns[c].parent == Some(x)
    ensures ns[x].first + |ns[x].moves| <= Fence(ns, c)
  {
    assert NodeOk(ns, x);
  }

  /** An expanded unfinished node holds the legal moves and its block of children lies
      inside the arena. */
  lemma MovesLegal(ns: seq<Node>, x: nat)
    requires WellFormed(ns) && x < |ns| && ns[x].initialized && !ns[x].ended
    ensures ns[x].moves == LegalMoves(ns[x].game) && ns[x].first + |ns[x].moves| <= |ns|
  {
    assert NodeOk(ns, x);
  }

  /** The child at a move equal to `move` holds the game after `move`. */
  lemma MatchedChild(ns: seq<Node>, x: nat, i: nat, move: Move)
    requires WellFormed(ns) && x < |ns| && ns[x].initialized && !ns[x].ended
    requires i < |ns[x].moves| && MoveEq(move, ns[x].moves[i])
    ensures ns[x].first + i < |ns| && ns[ns[x].first + i].parent == Some(x)
    ensures MoveDefined(ns[x].game, move) && ns[ns[x].first + i].game == Apply(ns[x].game, move)
  {
    ChildGame(ns, x, i);
    MoveEqEquivalence(move, ns[x].moves[i], ns[x].moves[i]);
    MoveEqSameGame(ns[x].game, ns[x].moves[i], move);
  }

  /** An expanded unfinished node holds the legal moves, and its i-th child points back to
      it and holds the game after the i-th move. */
  lemma ChildGame(ns: seq<Node>, x: nat, i: nat)
    requires WellFormed(ns) && x < |ns| && ns[x].initialized && !ns[x].ended
    requires i < |ns[x].moves|
    ensures ns[x].moves == LegalMoves(ns[x].game) && ns[x].first + i < |ns|
    ensures ns[ns[x].first + i].parent == Some(x)
    ensures MoveDefined(ns[x].game, ns[x].moves[i]) && ns[ns[x].first + i].game == Apply(ns[x].game, ns[x].moves[i])
  {
    assert NodeOk(ns, x);
    var nd := ns[x];
    assert Leads(nd.game, nd.moves[i], Games(ns, nd.first, |nd.moves|)[i]);
  }

  /** The upper confidence bounds `search` compares at an expanded node x. */
  ghost function Ucbs(ns: seq<Node>, x: nat, lambda: real, conf: nat -> real): (u: seq<real>)
    requires WellFormed(ns) && x < |ns| && ns[x].initialized && !ns[x].ended
    ensures |u| == |ns[x].moves|
  {
    assert NodeOk(ns, x);
    var nd := ns[x];
    seq(|nd.moves|, i requires 0 <= i < |nd.moves| => Bound(ns[nd.first + i], nd.p[i], lambda, conf))
  }

  /** The upper confidence bound of a child with prior `prior`: -val + lambda * P * conf(N). */
  function Bound(child: Node, prior: real, lambda: real, conf: nat -> real): real
  {
    -child.val + lambda * prior * conf(child.n)
  }

  lemma UcbAt(ns: seq<Node>, x: nat, lambda: real, conf: nat -> real, i: nat)
    requires WellFormed(ns) && x < |ns| && ns[x].initialized && !ns[x].ended && i < |ns[x].moves|
    ensures NodeOk(ns, x) && ns[x].first + i < |ns| && i < |ns[x].p|
    ensures Ucbs(ns, x, lambda, conf)[i] == Bound(ns[ns[x].first + i], ns[x].p[i], lambda, conf)
  {
    assert NodeOk(ns, x);
  }

  /** b is the first index of a largest entry. */
  predicate FirstMax(u: seq<real>, b: int)
  {
    0 <= b < |u| && (forall i :: 0 <= i < b ==> u[i] < u[b]) && (forall i :: b < i < |u| ==> u[i] <= u[b])
  }

  /** One search step at an expanded node x returning v: x is unchanged, child c = first + b
      has the first largest bound, its visit count grew by one and its value became the
      running average with v, every sibling is unchanged, and no old node outside c's
      subtree changed. The arena is the one a search step from c with result -v leaves,
      with that average stored at c. */
  ghost predicate Stepped(ns: seq<Node>, ns': seq<Node>, x: nat, lambda: real, e: Evaluator, v: real, b: int)
    requires WellFormed(ns) && x < |ns| && ns[x].initialized && !ns[x].ended && |ns| <= |ns'|
    decreases |ns| - x, 0
  {
    assert NodeOk(ns, x);
    var nd := ns[x];
    ns'[x] == nd && FirstMax(Ucbs(ns, x, lambda, e.conf), b) &&
    ns'[nd.first + b].n == ns[nd.first + b].n + 1 &&
    ns'[nd.first + b].val == ((ns[nd.first + b].n as real) * ns[nd.first + b].val + v) / ((ns[nd.first + b].n as real) + 1.0) &&
    (forall d :: nd.first <= d < nd.first + |nd.moves| && d != nd.first + b ==> ns'[d] == ns[d]) &&
    (forall d :: 0 <= d < |ns| && !Under(ns, d, nd.first + b) ==> ns'[d] == ns[d]) &&
    ChildStep(ns, ns', nd.first + b, lambda, e, -v)
  }

  /** ns' is the arena a search step from c with result w leaves, with the running average
      of w stored at c. */
  ghost predicate ChildStep(ns: seq<Node>, ns': seq<Node>, c: nat, lambda: real, e: Evaluator, w: real)
    requires WellFormed(ns) && c < |ns|
    decreases |ns| - c, 2
  {
    exists ns1 :: c < |ns1| && SearchPost(ns, ns1, c, lambda, e, w) && ns' == Averaged(ns1, c, w)
  }

  /** What one `search` from x does, from arena ns to arena ns' with result v: the tree
      stays valid and x keeps its identity and becomes initialized; nothing other than x
      below x's fence or outside x's subtree changes; a finished x returns minus its value and changes nothing;
      an uninitialized x is expanded and returns minus its new value; an expanded x takes
      one step in the sense of `Stepped` and gains one visit below it. */
  ghost predicate SearchPost(ns: seq<Node>, ns': seq<Node>, x: nat, lambda: real, e: Evaluator, v: real)
    requires WellFormed(ns) && x < |ns|
    decreases |ns| - x, 1
  {
    SearchFrame(ns, ns', x, v) &&
    (ns[x].ended ==> ns' == ns) &&
    (!ns[x].initialized ==> ns' == Expansion(ns, x, e) && v == -ns'[x].val) &&
    (ns[x].initialized && !ns[x].ended ==>
      (exists b :: Stepped(ns, ns', x, lambda, e, v, b)) && VisitSum(ns', x) == VisitSum(ns, x) + 1)
  }

  /** Every old node other than x outside x's subtree is unchanged. */
  ghost predicate Confined(ns: seq<Node>, ns': seq<Node>, x: nat)
    requires |ns| <= |ns'|
  {
    forall d :: 0 <= d < |ns| && d != x && !Under(ns, d, x) ==> ns'[d] == ns[d]
  }

  /** The frame of `SearchPost`: the tree stays valid, x keeps its identity and ends up
      initialized, only x and its subtree may change, an initialized x itself is unchanged,
      and a finished x returns minus its value. */
  ghost predicate SearchFrame(ns: seq<Node>, ns': seq<Node>, x: nat, v: real)
    requires x < |ns|
  {
    WellFormed(ns') && x < |ns'| && ns'[x].initialized && SameNode(ns'[x], ns[x]) &&
    Kept(ns, ns', x, Fence(ns, x)) && Confined(ns, ns', x) &&
    (ns[x].initialized ==> ns'[x] == ns[x]) &&
    (ns[x].ended ==> v == -ns'[x].val)
  }

  lemma EndedPost(ns: seq<Node>, x: nat, lambda: real, e: Evaluator)
    requires WellFormed(ns) && x < |ns| && ns[x].ended
    ensures SearchPost(ns, ns, x, lambda, e, -ns[x].val)
  {
    assert NodeOk(ns, x);
  }

  lemma ExpandedPost(ns: seq<Node>, ns': seq<Node>, x: nat, lambda: real, e: Evaluator)
    requires WellFormed(ns) && x < |ns| && !ns[x].initialized && KeepsLength(e)
    requires ns' == Expansion(ns, x, e)
    ensures SearchPost(ns, ns', x, lambda, e, -ns'[x].val)
  {
    assert NodeOk(ns, x);
    ExpansionValid(ns, x, e);
  }

  /** What the recursive `search` into child c leaves for its parent to use: the arena
      grew and stays valid, c is initialized with its old visit count and its old visit-
      weighted value, a finished c returned minus its value, and nothing else below c's
      fence or outside c's subtree changed. */
  ghost predicate ChildDone(ns0: seq<Node>, ns1: seq<Node>, c: nat, w: real)
    requires c < |ns0|
  {
    WellFormed(ns1) && |ns0| <= |ns1| && ns1[c].initialized && ns1[c].n == ns0[c].n &&
    (ns1[c].ended ==> w == -ns1[c].val) &&
    (ns1[c].n as real) * ns1[c].val == (ns0[c].n as real) * ns0[c].val &&
    (forall d :: 0 <= d < |ns0| && d != c && d < Fence(ns0, c) ==> ns1[d] == ns0[d]) &&
    forall d :: 0 <= d < |ns0| && !Under(ns0, d, c) ==> ns1[d] == ns0[d]
  }

  lemma ChildPost(ns0: seq<Node>, ns1: seq<Node>, c: nat, w: real)
    requires WellFormed(ns0) && c < |ns0|
    requires SearchFrame(ns0, ns1, c, w)
    ensures ChildDone(ns0, ns1, c, w)
  {
    assert NodeOk(ns0, c);
    if ns0[c].initialized {
      assert ns1[c] == ns0[c];
    } else {
      assert ns0[c].n == 0 && ns1[c].n == 0;
    }
  }

  /** The running average with one more visit at child c. */
  function Averaged(ns1: seq<Node>, c: nat, w: real): (ns2: seq<Node>)
    requires c < |ns1|
    ensures |ns2| == |ns1| && ns2[c].n == ns1[c].n + 1
  {
    ns1[c := ns1[c].(val := ((ns1[c].n as real) * ns1[c].val - w) / ((ns1[c].n as real) + 1.0), n := ns1[c].n + 1)]
  }

  /** What `search` on an initialized node establishes once child b has been searched with
      result w and its average stored. */
  lemma DescendStep(ns0: seq<Node>, ns1: seq<Node>, x: nat, b: nat, lambda: real, e: Evaluator, w: real)
    requires WellFormed(ns0) && x < |ns0| && ns0[x].initialized && !ns0[x].ended
    requires FirstMax(Ucbs(ns0, x, lambda, e.conf), b)
    requires ns0[x].first + b < |ns0|
    requires SearchPost(ns0, ns1, ns0[x].first + b, lambda, e, w)
    ensures WellFormed(Averaged(ns1, ns0[x].first + b, w))
    ensures SearchPost(ns0, Averaged(ns1, ns0[x].first + b, w), x, lambda, e, -w)
  {
    ChildPost(ns0, ns1, ns0[x].first + b, w);
    StepBookkeeping(ns0, ns1, x, b, lambda, e, w);
  }

  /** The bookkeeping after the recursive `search` into child c = first + b of x: storing
      the running average and the extra visit at c keeps the tree invariant and completes
      one search step of x. */
  lemma StepBookkeeping(ns0: seq<Node>, ns1: seq<Node>, x: nat, b: nat, lambda: real, e: Evaluator, w: real)
    requires WellFormed(ns0) && x < |ns0| && ns0[x].initialized && !ns0[x].ended
    requires FirstMax(Ucbs(ns0, x, lambda, e.conf), b)
    requires ns0[x].first + b < |ns0|
    requires ChildDone(ns0, ns1, ns0[x].first + b, w) && SearchPost(ns0, ns1, ns0[x].first + b, lambda, e, w)
    ensures SearchPost(ns0, Averaged(ns1, ns0[x].first + b, w), x, lambda, e, -w)
  {
    var c := ns0[x].first + b;
    var ns2 := Averaged(ns1, c, w);
    assert NodeOk(ns0, x);
    StepFrame(ns0, ns1, x, b, w);
    StepValue(ns0, ns1, x, b, w);
    StepConfined(ns0, ns1, x, b, w);
    assert c < |ns1| && SearchPost(ns0, ns1, c, lambda, e, w) && ns2 == Averaged(ns1, c, w);
    assert ChildStep(ns0, ns2, c, lambda, e, -(-w));
    assert Stepped(ns0, ns2, x, lambda, e, -w, b);
    StepVisits(ns0, ns1, x, b, w);
  }

  /** Storing the average at c = first + b changes no old node outside c's subtree, and so
      none outside x's subtree other than x. */
  lemma StepConfined(ns0: seq<Node>, ns1: seq<Node>, x: nat, b: nat, w: real)
    requires WellFormed(ns0) && x < |ns0| && ns0[x].first + b < ns0[x].first + |ns0[x].moves| <= |ns0|
    requires ChildDone(ns0, ns1, ns0[x].first + b, w)
    ensures var c, ns2 := ns0[x].first + b, Averaged(ns1, ns0[x].first + b, w);
      (forall d :: 0 <= d < |ns0| && !Under(ns0, d, c) ==> ns2[d] == ns0[d]) && Confined(ns0, ns2, x)
  {
    var c := ns0[x].first + b;
    ChildFence(ns0, x, c);
    forall d | 0 <= d < |ns0| && d != x && !Under(ns0, d, x)
      ensures Averaged(ns1, c, w)[d] == ns0[d]
    {
      if Under(ns0, d, c) {
        UnderChild(ns0, d, c, x);
      }
    }
  }

  /** Storing the average keeps the tree valid and changes nothing of x's block but c. */
  lemma StepFrame(ns0: seq<Node>, ns1: seq<Node>, x: nat, b: nat, w: real)
    requires WellFormed(ns0) && x < |ns0| && ns0[x].initialized && !ns0[x].ended
    requires ns0[x].first + b < ns0[x].first + |ns0[x].moves| <= |ns0|
    requires ChildDone(ns0, ns1, ns0[x].first + b, w)
    ensures var c, ns2 := ns0[x].first + b, Averaged(ns1, ns0[x].first + b, w);
      WellFormed(ns2) && |ns0| <= |ns2| && ns2[x] == ns0[x] && Kept(ns0, ns2, x, Fence(ns0, x)) &&
      forall d :: ns0[x].first <= d < ns0[x].first + |ns0[x].moves| && d != c ==> ns2[d] == ns0[d]
  {
    assert NodeOk(ns0, x);
    var c := ns0[x].first + b;
    ChildFence(ns0, x, c);
    assert ns1[c].ended ==> w == -ns1[c].val;
    EndedAverage(ns1, c, w);
    RevaluedValid(ns1, c, Averaged(ns1, c, w)[c].val, ns1[c].n + 1);
    assert Averaged(ns1, c, w) == ns1[c := ns1[c].(val := Averaged(ns1, c, w)[c].val, n := ns1[c].n + 1)];
  }

  /** A finished child returned minus its value, so the running average leaves it alone. */
  lemma EndedAverage(ns1: seq<Node>, c: nat, w: real)
    requires c < |ns1| && (ns1[c].ended ==> w == -ns1[c].val)
    ensures ns1[c].ended ==> Averaged(ns1, c, w)[c].val == ns1[c].val
  {
    if ns1[c].ended {
      AverageFixed(ns1[c].n, ns1[c].val);
    }
  }

  /** The value stored at c is the running average of c's old value with -w. */
  lemma StepValue(ns0: seq<Node>, ns1: seq<Node>, x: nat, b: nat, w: real)
    requires x < |ns0| && ns0[x].first + b < |ns0|
    requires ChildDone(ns0, ns1, ns0[x].first + b, w)
    ensures var c := ns0[x].first + b;
      Averaged(ns1, c, w)[c].val == ((ns0[c].n as real) * ns0[c].val + -w) / ((ns0[c].n as real) + 1.0)
  {
  }

  /** The extra visit at c is one more visit below x. */
  lemma StepVisits(ns0: seq<Node>, ns1: seq<Node>, x: nat, b: nat, w: real)
    requires WellFormed(ns0) && x < |ns0| && ns0[x].initialized && !ns0[x].ended
    requires ns0[x].first + b < ns0[x].first + |ns0[x].moves| <= |ns0|
    requires ChildDone(ns0, ns1, ns0[x].first + b, w)
    requires WellFormed(Averaged(ns1, ns0[x].first + b, w))
    requires forall d :: ns0[x].first <= d < ns0[x].first + |ns0[x].moves| && d != ns0[x].first + b ==> Averaged(ns1, ns0[x].first + b, w)[d] == ns0[d]
    requires Averaged(ns1, ns0[x].first + b, w)[x] == ns0[x]
    ensures VisitSum(Averaged(ns1, ns0[x].first + b, w), x) == VisitSum(ns0, x) + 1
  {
    assert NodeOk(ns0, x);
    var nd := ns0[x];
    var c := nd.first + b;
    var ns2 := Averaged(ns1, c, w);
    VisitsBumped(ns0, ns2, nd.first, nd.first + |nd.moves|, c);
  }

  /** A search step through an expanded node x leaves every child c' other than the one
      with the first largest bound, and everything below c', unchanged. */
  lemma SiblingSubtreesKept(ns: seq<Node>, ns': seq<Node>, x: nat, lambda: real, e: Evaluator, v: real, b: nat, c': nat)
    requires WellFormed(ns) && x < |ns| && ns[x].initialized && !ns[x].ended
    requires SearchPost(ns, ns', x, lambda, e, v) && FirstMax(Ucbs(ns, x, lambda, e.conf), b)
    requires ns[x].first <= c' < ns[x].first + |ns[x].moves| && c' != ns[x].first + b
    ensures |ns| <= |ns'| && forall d :: 0 <= d < |ns| && Under(ns, d, c') ==> ns'[d] == ns[d]
  {
    assert NodeOk(ns, x);
    var c := ns[x].first + b;
    var b' :| Stepped(ns, ns', x, lambda, e, v, b');
    FirstMaxUnique(Ucbs(ns, x, lambda, e.conf), b, b');
    forall d | 0 <= d < |ns| && Under(ns, d, c')
      ensures ns'[d] == ns[d]
    {
      SubtreesApart(ns, d, c, c', x);
    }
  }

  /** The first index of a largest entry is unique. */
  lemma FirstMaxUnique(u: seq<real>, b: int, b': int)
    requires FirstMax(u, b) && FirstMax(u, b')
    ensures b == b'
  {
    var top, top' := u[b], u[b'];
    assert !(b < b') && !(b' < b);
  }

  /** The state after i of the searches `get_move` runs from x, starting from ns0. */
  ghost predicate Repeated(ns0: seq<Node>, ns: seq<Node>, x: nat, i: nat)
    requires WellFormed(ns0) && x < |ns0|
  {
    WellFormed(ns) && x < |ns| && SameNode(ns[x], ns0[x]) && Kept(ns0, ns, x, Fence(ns0, x)) &&
    (i == 0 ==> ns == ns0) &&
    (i > 0 ==> (ns[x].initialized && Fence(ns, x) == Fence(ns0, x) &&
      VisitSum(ns, x) == (if ns0[x].initialized then VisitSum(ns0, x) + i else i - 1)))
  }

  lemma RepeatStep(ns0: seq<Node>, ns: seq<Node>, ns': seq<Node>, x: nat, i: nat, e: Evaluator, v: real)
    requires WellFormed(ns0) && x < |ns0| && !ns0[x].ended && KeepsLength(e)
    requires Repeated(ns0, ns, x, i)
    requires SearchPost(ns, ns', x, 1.0, e, v)
    ensures Repeated(ns0, ns', x, i + 1)
  {
    assert NodeOk(ns0, x);
    assert NodeOk(ns, x);
    if !ns[x].initialized {
      ExpansionVisits(ns, x, e);
      ExpansionValid(ns, x, e);
    }
  }

  /** The visits of the nodes lo .. hi - 1. */
  function Visits(ns: seq<Node>, lo: nat, hi: nat): nat
    requires lo <= hi <= |ns|
    decreases hi - lo
  {
    if lo == hi then 0 else Visits(ns, lo, hi - 1) + ns[hi - 1].n
  }

  /** The visits of x's children, `N_tot` in `get_prob`. */
  ghost function VisitSum(ns: seq<Node>, x: nat): nat
    requires WellFormed(ns) && x < |ns|
  {
    assert NodeOk(ns, x);
    Visits(ns, ns[x].first, ns[x].first + |ns[x].moves|)
  }

  lemma {:induction false} VisitsSame(ns: seq<Node>, ns': seq<Node>, lo: nat, hi: nat)
    requires lo <= hi <= |ns| && hi <= |ns'|
    requires forall d :: lo <= d < hi ==> ns'[d].n == ns[d].n
    ensures Visits(ns', lo, hi) == Visits(ns, lo, hi)
    decreases hi - lo
  {
    if lo < hi {
      VisitsSame(ns, ns', lo, hi - 1);
    }
  }

  /** One more visit to a node of the range adds one to the range's visits. */
  lemma {:induction false} VisitsBumped(ns: seq<Node>, ns': seq<Node>, lo: nat, hi: nat, c: nat)
    requires lo <= c < hi <= |ns| && hi <= |ns'|
    requires forall d :: lo <= d < hi && d != c ==> ns'[d].n == ns[d].n
    requires ns'[c].n == ns[c].n + 1
    ensures Visits(ns', lo, hi) == Visits(ns, lo, hi) + 1
    decreases hi - lo
  {
    if c == hi - 1 {
      VisitsSame(ns, ns', lo, hi - 1);
    } else {
      VisitsBumped(ns, ns', lo, hi - 1, c);
    }
  }

  lemma {:induction false} VisitsZero(ns: seq<Node>, lo: nat, hi: nat)
    requires lo <= hi <= |ns|
    requires forall d :: lo <= d < hi ==> ns[d].n == 0
    ensures Visits(ns, lo, hi) == 0
    decreases hi - lo
  {
    if lo < hi {
      VisitsZero(ns, lo, hi - 1);
    }
  }

  /** A freshly expanded node has no visits among its children. */
  lemma ExpansionVisits(ns: seq<Node>, x: nat, e: Evaluator)
    requires WellFormed(ns) && x < |ns| && !ns[x].initialized && KeepsLength(e)
    ensures WellFormed(Expansion(ns, x, e)) && VisitSum(Expansion(ns, x, e), x) == 0
  {
    ExpansionValid(ns, x, e);
    assert NodeOk(ns, x);
    InProgressHasMoves(ns[x].game);
    var ev := Evaluation(ns[x], e);
    var ns' := Expansion(ns, x, e);
    assert ns' == Expanded(ns, x, ev.0, ev.1);
    ExpandedUnvisited(ns, x, ev.0, ev.1);
    FreshBlockSum(ns', x, |ns|);
  }

  lemma FreshBlockSum(ns: seq<Node>, x: nat, lo: nat)
    requires WellFormed(ns) && x < |ns| && ns[x].first == lo && lo + |ns[x].moves| == |ns|
    requires Visits(ns, lo, |ns|) == 0
    ensures VisitSum(ns, x) == 0
  {
  }

  lemma ExpandedUnvisited(ns: seq<Node>, x: nat, val: real, p: seq<real>)
    requires x < |ns|
    ensures var ns' := Expanded(ns, x, val, p);
      ns'[x].first == |ns| && |ns'[x].moves| == |ns'| - |ns| && Visits(ns', |ns|, |ns'|) == 0
  {
    var ns' := Expanded(ns, x, val, p);
    var nd := ns[x];
    var moves := LegalMoves(nd.game);
    ExpandedLayout(ns, x, val, p);
    forall d | |ns| <= d < |ns'|
      ensures ns'[d].n == 0
    {
      FreshChildEmpty(x, nd, moves[d - |ns|]);
    }
    VisitsZero(ns', |ns|, |ns'|);
  }

  /** The visit shares `get_prob` returns: N_i / N_tot for each child. */
  ghost function Shares(ns: seq<Node>, x: nat): (s: seq<real>)
    requires WellFormed(ns) && x < |ns| && VisitSum(ns, x) > 0
    ensures |s| == |ns[x].moves|
  {
    assert NodeOk(ns, x);
    var nd := ns[x];
    seq(|nd.moves|, i requires 0 <= i < |nd.moves| => (ns[nd.first + i].n as real) / (VisitSum(ns, x) as real))
  }

  lemma SharesPrefix(ns: seq<Node>, x: nat, m: nat)
    requires WellFormed(ns) && x < |ns| && VisitSum(ns, x) > 0 && m <= |ns[x].moves|
    ensures NodeOk(ns, x)
    ensures Prefix(Shares(ns, x), m) == (Visits(ns, ns[x].first, ns[x].first + m) as real) / (VisitSum(ns, x) as real)
  {
    assert NodeOk(ns, x);
    var lo, k, t := ns[x].first, |ns[x].moves|, VisitSum(ns, x) as real;
    assert Shares(ns, x) == Fractions(ns, lo, k, t);
    FractionsPrefix(ns, lo, k, t, m);
  }

  /** The visit counts of the k nodes from lo, each divided by t. */
  function Fractions(ns: seq<Node>, lo: nat, k: nat, t: real): (s: seq<real>)
    requires lo + k <= |ns| && t > 0.0
    ensures |s| == k && forall i :: 0 <= i < k ==> s[i] == (ns[lo + i].n as real) / t
  {
    seq(k, i requires 0 <= i < k => (ns[lo + i].n as real) / t)
  }

  /** The first m fractions add up to the first m visit counts divided by t. */
  lemma {:induction false} FractionsPrefix(ns: seq<Node>, lo: nat, k: nat, t: real, m: nat)
    requires lo + k <= |ns| && t > 0.0 && m <= k
    ensures Prefix(Fractions(ns, lo, k, t), m) == (Visits(ns, lo, lo + m) as real) / t
  {
    if m > 0 {
      var s := Fractions(ns, lo, k, t);
      FractionsPrefix(ns, lo, k, t, m - 1);
      PrefixStep(s, m - 1);
      AddFractions(Visits(ns, lo, lo + m - 1) as real, ns[lo + m - 1].n as real, t);
    }
  }

  /** The shares are fractions in [0, 1] and add up to 1. */
  lemma SharesSumToOne(ns: seq<Node>, x: nat)
    requires WellFormed(ns) && x < |ns| && VisitSum(ns, x) > 0
    ensures var s := Shares(ns, x);
      Total(s) == 1.0 && forall i :: 0 <= i < |s| ==> 0.0 <= s[i] <= 1.0
  {
    var s := Shares(ns, x);
    SharesPrefix(ns, x, |s|);
    assert s[..|s|] == s;
    var t := VisitSum(ns, x) as real;
    assert Visits(ns, ns[x].first, ns[x].first + |s|) as real == t;
    DivSelf(t);
    forall i | 0 <= i < |s|
      ensures 0.0 <= s[i] <= 1.0
    {
      ShareBounds(ns, x, i);
    }
  }

  lemma AddFractions(a: real, b: real, t: real)
    requires t > 0.0
    ensures a / t + b / t == (a + b) / t
  {
  }

  lemma DivSelf(t: real)
    requires t > 0.0
    ensures t / t == 1.0
  {
  }

  lemma ShareBounds(ns: seq<Node>, x: nat, i: nat)
    requires WellFormed(ns) && x < |ns| && VisitSum(ns, x) > 0 && i < |ns[x].moves|
    ensures 0.0 <= Shares(ns, x)[i] <= 1.0
  {
    assert NodeOk(ns, x);
    var lo := ns[x].first;
    var t := VisitSum(ns, x) as real;
    VisitsPart(ns, lo, lo + i, lo + |ns[x].moves|);
    assert Shares(ns, x)[i] == (ns[lo + i].n as real) / t;
  }

  /** A node's visits are part of the visits of any range holding it. */
  lemma {:induction false} VisitsPart(ns: seq<Node>, lo: nat, c: nat, hi: nat)
    requires lo <= c < hi <= |ns|
    ensures ns[c].n <= Visits(ns, lo, hi)
    decreases hi - lo
  {
    if c < hi - 1 {
      VisitsPart(ns, lo, c, hi - 1);
    }
  }

  /** A child chosen with a positive share has been visited. */
  lemma ChosenVisited(ns: seq<Node>, x: nat, r: real, i: int)
    requires WellFormed(ns) && x < |ns| && VisitSum(ns, x) > 0
    requires FirstAbove(Shares(ns, x), r, i) && r >= 0.0
    ensures NodeOk(ns, x) && ns[ns[x].first + i].n > 0
  {
    assert NodeOk(ns, x);
    ChosenPositive(Shares(ns, x), r, i);
  }

  /** The records `write_results_r` emits from node y upwards, a node with the value it
      stores, the sign flipping at each step up. */
  ghost function Records(ns: seq<Node>, y: Option<nat>, v: real): seq<(nat, real)>
    requires WellFormed(ns) && (y.Some? ==> y.value < |ns|)
    decreases if y.Some? then y.value + 1 else 0
  {
    match y
    case None => []
    case Some(z) =>
      assert NodeOk(ns, z);
      [(z, v)] + Records(ns, ns[z].parent, -v)
  }

  /** The records `write_results` emits for the final node x. */
  ghost function FinalRecords(ns: seq<Node>, x: nat): seq<(nat, real)>
    requires WellFormed(ns) && x < |ns|
  {
    assert NodeOk(ns, x);
    Records(ns, ns[x].parent, -ns[x].val)
  }

  /** The number of ancestors of x. */
  ghost function Depth(ns: seq<Node>, x: nat): nat
    requires WellFormed(ns) && x < |ns|
    decreases x
  {
    assert NodeOk(ns, x);
    match ns[x].parent
    case None => 0
    case Some(z) => 1 + Depth(ns, z)
  }

  /** The records for the nodes above x: one per ancestor, from x's parent up to the root,
      each the parent of the one before; none of them is x itself; the values alternate,
      starting with v. */
  lemma {:induction false} RecordsChain(ns: seq<Node>, x: nat, v: real)
    requires WellFormed(ns) && x < |ns|
    ensures ns[x].parent.Some? ==> ns[x].parent.value < x
    ensures var recs := Records(ns, ns[x].parent, v);
      |recs| == Depth(ns, x) && Chain(ns, x, recs, v)
    decreases x
  {
    ParentBelow(ns, x);
    RecordsDepth(ns, x, v);
    if ns[x].parent.Some? {
      var z := ns[x].parent.value;
      RecordsChain(ns, z, -v);
      var rest := Records(ns, ns[z].parent, -v);
      assert Records(ns, ns[x].parent, v) == [(z, v)] + rest;
      assert |rest| == 0 ==> ns[z].parent.None?;
      ChainStep(ns, x, z, v, rest);
    }
  }

  /** There is one record per ancestor. */
  lemma {:induction false} RecordsDepth(ns: seq<Node>, x: nat, v: real)
    requires WellFormed(ns) && x < |ns|
    ensures ns[x].parent.Some? ==> ns[x].parent.value < x
    ensures |Records(ns, ns[x].parent, v)| == Depth(ns, x)
    decreases x
  {
    ParentBelow(ns, x);
    if ns[x].parent.Some? {
      RecordsDepth(ns, ns[x].parent.value, -v);
    }
  }

  /** A node's parent comes before it. */
  lemma ParentBelow(ns: seq<Node>, x: nat)
    requires WellFormed(ns) && x < |ns|
    ensures ns[x].parent.Some? ==> ns[x].parent.value < x
  {
    assert NodeOk(ns, x);
  }

  /** recs lists the ancestors of x from its parent to the root, each below the one before,
      with values alternating from v. */
  ghost predicate Chain(ns: seq<Node>, x: nat, recs: seq<(nat, real)>, v: real)
    requires x < |ns|
  {
    (|recs| > 0 ==> ns[x].parent == Some(recs[0].0)) &&
    forall n :: 0 <= n < |recs| ==>
      recs[n].0 < x && recs[n].1 == (if n % 2 == 0 then v else -v) &&
      (n + 1 < |recs| ==> ns[recs[n].0].parent == Some(recs[n + 1].0)) &&
      (n + 1 == |recs| ==> ns[recs[n].0].parent.None?)
  }

  /** A chain from x's parent z extends to a chain from x. */
  lemma ChainStep(ns: seq<Node>, x: nat, z: nat, v: real, rest: seq<(nat, real)>)
    requires x < |ns| && z < x && ns[x].parent == Some(z)
    requires |rest| == 0 ==> ns[z].parent.None?
    requires Chain(ns, z, rest, -v)
    ensures Chain(ns, x, [(z, v)] + rest, v)
  {
    var recs := [(z, v)] + rest;
    forall n | 0 <= n < |recs|
      ensures recs[n].0 < x && recs[n].1 == (if n % 2 == 0 then v else -v)
      ensures n + 1 < |recs| ==> ns[recs[n].0].parent == Some(recs[n + 1].0)
      ensures n + 1 == |recs| ==> ns[recs[n].0].parent.None?
    {
      if n > 0 {
        assert recs[n] == rest[n - 1];
      }
    }
  }

  /** Node d holds its old contents with the value of record n for every record n of d,
      and is unchanged when no record names it. */
  ghost predicate WrittenBy(ns: seq<Node>, ns': seq<Node>, recs: seq<(nat, real)>)
  {
    |ns'| == |ns| &&
    (forall n :: 0 <= n < |recs| ==> recs[n].0 < |ns| && ns'[recs[n].0] == ns[recs[n].0].(val := recs[n].1)) &&
    forall d :: 0 <= d < |ns| && (forall n :: 0 <= n < |recs| ==> recs[n].0 != d) ==> ns'[d] == ns[d]
  }

  /** Writing v into z and then the records of the nodes below z writes the records of z
      and those below. */
  lemma WrittenStep(ns0: seq<Node>, ns2: seq<Node>, z: nat, v: real, rest: seq<(nat, real)>)
    requires z < |ns0|
    requires forall n :: 0 <= n < |rest| ==> rest[n].0 < z
    requires WrittenBy(ns0[z := ns0[z].(val := v)], ns2, rest)
    ensures WrittenBy(ns0, ns2, [(z, v)] + rest)
  {
    var ns1 := ns0[z := ns0[z].(val := v)];
    var recs := [(z, v)] + rest;
    assert ns2[z] == ns1[z];
    forall n | 0 <= n < |recs|
      ensures recs[n].0 < |ns0| && ns2[recs[n].0] == ns0[recs[n].0].(val := recs[n].1)
    {
      if n > 0 {
        assert recs[n] == rest[n - 1];
      }
    }
    forall d | 0 <= d < |ns0| && (forall n :: 0 <= n < |recs| ==> recs[n].0 != d)
      ensures ns2[d] == ns0[d]
    {
      assert recs[0].0 != d;
      forall n | 0 <= n < |rest|
        ensures rest[n].0 != d
      {
        assert recs[n + 1] == rest[n];
      }
    }
  }

  /** Writing v into an expanded node z keeps the tree valid, and z's parent is an earlier
      expanded node. */
  lemma WriteStarts(ns: seq<Node>, z: nat, v: real)
    requires WellFormed(ns) && z < |ns| && |ns[z].moves| > 0
    ensures var ns' := ns[z := ns[z].(val := v)];
      WellFormed(ns') && ns'[z].parent == ns[z].parent &&
      (ns[z].parent.Some? ==> ns[z].parent.value < z && |ns'[ns[z].parent.value].moves| > 0)
  {
    assert NodeOk(ns, z);
    RevaluedValid(ns, z, v, ns[z].n);
  }

  /** The records of z are z's own followed by those of its parent with -v, read in an arena
      with the same parent links (as after v was written into z). */
  lemma RecordsStep(ns0: seq<Node>, ns1: seq<Node>, z: nat, v: real)
    requires WellFormed(ns0) && z < |ns0| && WellFormed(ns1) && |ns1| == |ns0|
    requires forall d :: 0 <= d < |ns0| ==> ns1[d].parent == ns0[d].parent
    requires ns0[z].parent.Some? ==> ns0[z].parent.value < z
    ensures Records(ns0, Some(z), v) == [(z, v)] + Records(ns1, ns0[z].parent, -v)
  {
    var rest := Records(ns0, ns0[z].parent, -v);
    RecordsSameParents(ns0, ns1, ns0[z].parent, -v);
    assert Records(ns1, ns0[z].parent, -v) == rest;
    RecordsUnfold(ns0, z, v);
  }

  /** One step of `Records`. */
  lemma RecordsUnfold(ns: seq<Node>, z: nat, v: real)
    requires WellFormed(ns) && z < |ns| && (ns[z].parent.Some? ==> ns[z].parent.value < z)
    ensures Records(ns, Some(z), v) == [(z, v)] + Records(ns, ns[z].parent, -v)
  {
  }

  /** Writing a value into a node changes no parent link. */
  lemma WriteKeepsParents(ns: seq<Node>, z: nat, v: real)
    requires z < |ns|
    ensures var ns' := ns[z := ns[z].(val := v)];
      |ns'| == |ns| && forall d :: 0 <= d < |ns| ==> ns'[d].parent == ns[d].parent
  {
  }

  /** The records written from z's parent after writing v into z, put behind z's own, are
      written into the old arena and name nodes up to z. */
  lemma WriteEnds(ns0: seq<Node>, ns2: seq<Node>, z: nat, v: real, bound: int, rest: seq<(nat, real)>)
    requires z < |ns0| && bound < z
    requires forall n :: 0 <= n < |rest| ==> rest[n].0 <= bound
    requires WrittenBy(ns0[z := ns0[z].(val := v)], ns2, rest)
    ensures forall n :: 0 <= n < |[(z, v)] + rest| ==> ([(z, v)] + rest)[n].0 <= z
    ensures WrittenBy(ns0, ns2, [(z, v)] + rest)
  {
    var recs := [(z, v)] + rest;
    forall n | 0 <= n < |recs|
      ensures recs[n].0 <= z
    {
      if n > 0 {
        assert recs[n] == rest[n - 1];
      }
    }
    WrittenStep(ns0, ns2, z, v, rest);
  }

  /** The records depend on the parent links only. */
  lemma {:induction false} RecordsSameParents(ns: seq<Node>, ns': seq<Node>, y: Option<nat>, v: real)
    requires WellFormed(ns) && WellFormed(ns') && |ns| == |ns'| && (y.Some? ==> y.value < |ns|)
    requires forall d :: 0 <= d < |ns| ==> ns'[d].parent == ns[d].parent
    ensures Records(ns', y, v) == Records(ns, y, v)
    decreases if y.Some? then y.value + 1 else 0
  {
    if y.Some? {
      assert NodeOk(ns, y.value);
      RecordsSameParents(ns, ns', ns[y.value].parent, -v);
    }
  }
}
