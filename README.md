# A verified model of a 4x4 Tak engine and its Monte Carlo tree search

The system plays Tak on a 4x4 board. The board holds a stack of up to eight
pieces on each cell, as one byte per piece: 1 and 2 are the two players' flats,
and 11 and 12 are their walls (the wall offset is 10). A C++ engine generates
moves, applies them and scores positions. A Monte Carlo tree search bot uses
that engine to choose moves. A text front-end reads moves typed by a person. An
inference adapter feeds the board to a policy/value network. A Python training
loader encodes the positions and moves that self-play records.

This project models those parts in Dafny:

- **Modules TakTypes and Stacks.** The board is the flat byte layout of
  `uint8_t board[4][4][9]`. The in-place byte operations are `memmove`,
  `add_piece` and `move_tower`. They are methods on an `array<uint8>`, each
  proved against a function on the board's contents.
- **Module TowerFacts.** Proves what a legal stack move does to the pieces:
  which cell receives which run of the carried stack, and what stays where.
- **Module Engine.** Proves the same for `apply_move` (including the uint8
  wrap-around of the reserve counters), for `move_eq` and for `new_tak_game`.
- **Module Moves.** Models `search_line` and `available_moves` as methods with
  their loops. Each is proved equal to a function that lists the same moves in
  the same order.
- **Module MoveFacts.** Characterises that list by an independent,
  order-free legality predicate. It also states what the list guarantees: every
  move is playable, in bounds, and fits the policy layout.
- **Modules UnionFind, Scoring, Roads and OutcomeFacts.**
  Model `find`, `union_dir` and the road scan of `game_outcome`:
  - The road scan is proved sound and complete against an independent notion
    of a road: a walk of orthogonally adjacent flat tops of one player that
    joins opposite edges.
  - `game_outcome` is characterised case by case.
- **Module Parser.** Models the token logic of `parse_move`. A token
  sequence parses exactly when it writes a move that `available_moves` offers.
  Typing back an offered move gives that move.
- **Modules AiModel and Dataset.** Model the engine's `encode_board` and its
  move-to-policy-slot choice in `get_eval`, which the training side's
  `encode_move` and `encode_board` are compared against. The two board encoders
  disagree when player 2 is to move (see Findings). `AiModel.GetEval` and the
  search query the network with the code's absolute encoding, as written.
  `AiModel.EncodeForMover` and `AiModel.GetEvalForMover` are the corrected,
  mover-relative versions.
- **Module Heights.** Proves that every offered move keeps every stack below
  eight pieces, so that no stack reachable from `new_tak_game` fills all eight
  piece slots of a cell.
- **Modules SearchTree, Mcts and Selection.** Model the search tree:
  - the node arena and its invariant;
  - `new_mcts`, `init_node`, `search`, `get_prob`, `get_move` (with its random
    number as an input), `mcts_apply_move` and `write_results`.

  The tree lives in a class, `Mcts.Tree`. It holds the nodes in an arena, a
  sequence indexed by node number. Each node refers to its parent and to its
  first child by index instead of by address. The methods update the arena in
  place and are proved against specification functions:
  - `Expansion` for the first visit to a node;
  - `SearchPost` for one search step;
  - `Shares` for the visit distribution;
  - `Records` for the result backup.

The model follows three behaviours of the code that differ from the usual
Tak rules:

- **Full board with equal flat counts.** The code returns player 2's win
  (mcts/src/game.cpp:320), not a tie. `OutcomeFacts.RoadOutcome` states this.
- **Pieces left at the source.** A stack move may leave `drop0` pieces on its
  source cell; it need not carry the whole stack. `MoveFacts.LegalStackMove`
  states the bound `0 <= drop0 <= h - 1`.
- **A skipped cell.** A stack move with `drop2 = 0` may still carry pieces to
  the third cell, passing over the second one. `MoveFacts.SkipsSecondCell`
  exhibits such a move. The text front-end has no way to enter it: a typed 0
  for `drop2` is raised to 1 (mcts/tui.cpp:93-94), so a parsed `drop2` is 0 only
  when the clamp to the stack height (mcts/tui.cpp:96) finds that `drop0` and
  `drop1` already took the whole stack. `Parser.NoGapAfterSecondDrop` and
  `Parser.ParseTyped` state this.

## Model

| member | source | states |
|---|---|---|
| Stacks.MemMove | mcts/src/game.cpp:36 | the array afterwards is the old contents with `n` bytes copied from `src` to `dst`, read as if from a copy of the source range, so overlapping ranges are handled |
| Stacks.GetTowerHeight | mcts/src/game.cpp:14-20 | returns the stack height: the number of non-empty slots before the first empty one, at most 8 |
| Stacks.HeightUnique | mcts/src/game.cpp:14-20 | any h that has non-empty slots below it and an empty slot at h is the height |
| Stacks.AddPiece | mcts/src/game.cpp:35-38 | the cell's slots shift up by one, the piece (wrapped to a byte) becomes slot 0, and the rest of the board is unchanged |
| Engine.PlacedStack | mcts/src/game.cpp:35-38 | after a placement the cell reads the piece followed by the old stack minus its top slot, and every byte outside the cell is unchanged |
| Stacks.OpenTower | mcts/src/game.cpp:53-54 | the in-place opening of `drop` slots at the bottom of a destination stack equals the opening function on the old board |
| Stacks.ShiftTower | mcts/src/game.cpp:53-60 | one pass of `move_tower` (opening the destination, copying the run, closing the source) equals the pass function on the old board |
| Stacks.TowerPass | mcts/src/game.cpp:44-61 | one loop pass does nothing when its drop is 0 or the destination is off the board, and otherwise performs the shift |
| Stacks.MoveTower | mcts/src/game.cpp:40-62 | the in-place three-pass loop yields the three-drop tower move on the old board; the drops come from drop1, drop2 and the height remainder |
| TowerFacts.PassTarget | mcts/src/game.cpp:53-57 | a pass leaves the destination holding the carried run on top of its old slots |
| TowerFacts.PassSource | mcts/src/game.cpp:59-60 | a pass leaves the source with the run removed and the rest moved down |
| TowerFacts.ShiftedPieces | mcts/src/game.cpp:53-60 | in terms of pieces, a shift moves the first d pieces of the source onto the destination, keeps the rest at the source and touches no other cell |
| TowerFacts.TowerPieces | mcts/src/game.cpp:40-62 | for every legal stack move, applying it distributes the source's pieces to the cells along the line by the drops, keeps `drop0` pieces at the source and leaves every other cell as it was |
| TowerFacts.LegalShape | mcts/src/game.cpp:40-62 | every legal stack move stays on the board for each non-zero drop, never overfills a stack, and its remainder drop equals the height minus the drops |
| Engine.ApplyMove | mcts/src/game.cpp:64-85 | `apply_move` copies the game and then places a piece or moves a tower, decrements the mover's reserve and flips the turn, as the function `Apply` |
| Engine.ApplyPlacement | mcts/src/game.cpp:64-85 | a placement puts the mover's flat or wall on top of the cell, keeps every other cell, decrements the mover's reserve modulo 256, keeps the other reserve and flips the turn |
| Engine.ApplyTowerMove | mcts/src/game.cpp:64-85 | a stack move keeps both reserves, flips the turn and moves the tower with the direction wrapped to a byte |
| Engine.MoveEqMeaning | mcts/src/game.cpp:188-201 | two placements are equal when their kind and cell are; a stack move equals only the identical move |
| Engine.MoveEqEquivalence | mcts/src/game.cpp:188-201 | `move_eq` is reflexive, symmetric and transitive |
| Engine.MoveEqSameGame | mcts/src/game.cpp:188-201 | moves that `move_eq` identifies are defined on the same games and lead to the same game |
| Moves.SearchLine | mcts/src/game.cpp:90-138 | the moves appended for one stack are exactly the line moves of the four directions, in the loops' order |
| Moves.MaxDrops | mcts/src/game.cpp:100-117 | the wall scan gives each cell along the line the number of pieces that can still reach it: 0 from the first wall or board edge onwards |
| Moves.DropsScan | mcts/src/game.cpp:118-136 | the drop0 loop of one direction appends exactly that direction's moves |
| Moves.D1Scan | mcts/src/game.cpp:119-135 | the drop1 loop appends exactly the moves with the given drop0 |
| Moves.D2Scan | mcts/src/game.cpp:120-134 | the drop2 loop appends exactly the moves with the given drop0 and drop1 |
| Moves.LineCandidate | mcts/src/game.cpp:121-133 | one candidate is appended exactly when the drop remainder and the stack-height fit tests accept it |
| Moves.ClosedBeyond | mcts/src/game.cpp:106-117 | once a cell of the line is closed, every later cell is closed too |
| Moves.AvailableMoves | mcts/src/game.cpp:140-161 | returns exactly `LegalMoves`, in the source's row, cell and direction order |
| Moves.ScanCells | mcts/src/game.cpp:143-158 | the inner loop over one row appends exactly that row's moves |
| Moves.ScanCell | mcts/src/game.cpp:144-157 | one cell contributes a flat and a wall when empty, its stack moves when topped by the mover's piece, and nothing otherwise |
| MoveFacts.LegalMovesMember | mcts/src/game.cpp:140-161 | a move is offered exactly when it satisfies the order-free legality predicate: a zero-argument placement on an empty cell, or a stack move from a cell topped by the mover that passes the line bounds and tests |
| MoveFacts.LegalStackMove | mcts/src/game.cpp:90-138 | every offered stack move goes in one of four directions, starts on a cell the mover tops, leaves `0 <= drop0 <= h - 1` pieces, drops at least one on the first cell, drops only on open cells, and never overfills a stack |
| MoveFacts.LegalIsDefined | mcts/src/game.cpp:64-85 | every offered move can be applied without leaving the board or the stack bounds |
| MoveFacts.LegalDropsInPolicy | mcts/src/game.cpp:118-136 | every offered move has drop0 < 7 and drop1, drop2 < 8 |
| MoveFacts.SkipsSecondCell | mcts/src/game.cpp:121-133 | a concrete legal move with drop2 = 0 and a non-zero remainder drop, which passes over the second cell |
| MoveFacts.NewGameMoves | mcts/src/game.cpp:324-330 | the starting position offers exactly 32 moves, a flat and a wall on each cell, and no stack move |
| MoveFacts.EmptyBoardMoves | mcts/src/game.cpp:140-161 | on any board where every cell is empty, 32 placements and no stack move are offered |
| UnionFind.Find | mcts/src/game.cpp:204-210 | follows parent links to a root (a cell marked -1) and returns a cell itself when it is a root |
| UnionFind.UnionDir | mcts/src/game.cpp:215-226 | the in-place union equals the functional union: a no-op when the roots agree, and otherwise the second root is linked under the first and the edge flags are OR-ed into it |
| UnionFind.JoinFlags | mcts/src/game.cpp:221-225 | the root's four edge flags become the OR of both roots' flags |
| UnionFind.RootAfterUnite | mcts/src/game.cpp:215-226 | after a union, the members of the second component have the first root; every other cell keeps its root |
| UnionFind.UnitePreservesOr | mcts/src/game.cpp:215-226 | if every root's flags are the OR of its members' initial flags before a union, the same holds after it |
| UnionFind.SingletonsAreOr | mcts/src/game.cpp:258-267 | the initial forest of singletons satisfies that invariant |
| Scoring.CountFlats | mcts/src/game.cpp:231-244 | counts the cells topped by each player's flat |
| Scoring.FindRoad | mcts/src/game.cpp:258-299 | the road scan reports the win of the first join after which a component touches two opposite edges, or no win |
| Scoring.ScanBoard | mcts/src/game.cpp:269-299 | the loop over rows continues the scan over the remaining rows |
| Scoring.ScanRow | mcts/src/game.cpp:270-298 | one row's loops give the same result as the row scan function on the old union-find state |
| Scoring.ScanPair | mcts/src/game.cpp:274-296 | one neighbour test joins the two cells exactly when both are on the board and topped by the same flat |
| Scoring.JoinCells | mcts/src/game.cpp:283-295 | after the union, the scan stops with the joining flat's owner as winner if the new root spans left–right or top–bottom, and otherwise continues with the united state |
| Scoring.CountFullBoard | mcts/src/game.cpp:303-320 | in progress if some cell is empty; otherwise player 1 wins with more flat tops and player 2 wins in every other case |
| Scoring.GameOutcome | mcts/src/game.cpp:228-321 | `game_outcome` checks the reserves, then a road, then a full board, as the function `OutcomeOf` |
| Roads.RoadScanCorrect | mcts/src/game.cpp:258-299 | the road scan's winner has a road, and when the scan finds none, neither player has a road |
| Roads.SpanningRoad | mcts/src/game.cpp:283-295 | when a component's root spans two opposite edges, its player has a road between them |
| Roads.RoadSpans | mcts/src/game.cpp:269-299 | when the scan has joined every adjacent same-flat pair, every road lies in one component whose root spans |
| OutcomeFacts.ReserveOutcome | mcts/src/game.cpp:230-253 | with either reserve empty, the outcome is the flat-top majority, or a tie on equal counts, and never in progress |
| OutcomeFacts.RoadOutcome | mcts/src/game.cpp:228-321 | with both reserves left: in progress exactly when no road exists and a cell is empty; a lone road wins for its player; a full roadless board goes to player 1 only on a strict majority and otherwise to player 2; never a tie |
| Heights.PlacedLow | mcts/src/game.cpp:35-38 | a piece added to an empty cell leaves that cell one piece high at most |
| Heights.PlacementKeepsHeights | mcts/src/game.cpp:144-152 | a legal placement keeps every stack below eight pieces |
| Heights.EffectKeepsHeights | mcts/src/game.cpp:40-62 | a stack move whose source keeps fewer than eight pieces and whose every drop fits on its landing stack leaves every stack below eight pieces |
| Heights.StackMoveKeepsHeights | mcts/src/game.cpp:124-128 | a legal stack move keeps every stack below eight pieces, because `search_line` admits a drop only when it fits below eight |
| Heights.LegalMoveKeepsHeights | mcts/src/game.cpp:140-161 | every move `available_moves` offers can be applied and keeps every stack below eight pieces |
| Heights.OfferedDefined | mcts/src/game.cpp:140-161 | every move `available_moves` offers can be applied |
| Heights.PlayedKeepsHeights | mcts/src/game.cpp:14-20 | any sequence of offered moves keeps every stack below eight pieces, so `get_tower_height` never reaches its cap of 8 |
| Heights.ReachableHeights | mcts/src/game.cpp:324-330 | every game reached from `new_tak_game` by offered moves has every stack below eight pieces |
| OutcomeFacts.InProgressHasMoves | mcts/src/game.cpp:140-161 | a game in progress offers at least two moves |
| OutcomeFacts.InProgressReserves | mcts/src/game.cpp:77-83 | in a game in progress a placement decrements the mover's reserve without wrapping |
| OutcomeFacts.ColumnOfFour | mcts/src/game.cpp:269-299 | four player-1 flats down one edge column join top and bottom: player 1 wins |
| OutcomeFacts.ColumnOfThree | mcts/src/game.cpp:269-299 | three such flats are no road: the game is in progress |
| OutcomeFacts.NewGameInProgress | mcts/src/game.cpp:324-330 | the starting game is in progress |
| Parser.ReadDir | mcts/tui.cpp:59-80 | w, s, a and d give the four directions, and any other letter is rejected |
| Parser.ReadDrops | mcts/tui.cpp:83-101 | reads three drop digits, limiting each to what is left of the stack and raising drop1 and drop2 to at least 1 |
| Parser.ThreeDrops | mcts/tui.cpp:83-101 | the drops sum to at most the height; drop1 is at least 1 while pieces remain after drop0, and drop2 while pieces remain after drop1; digit input gives non-negative drops |
| Parser.WriteMove | mcts/tui.cpp:25-101 | the type letter, the file and rank coordinates, the direction and the drops give the written move, or a rejection for a bad letter, an off-board cell or a bad direction |
| Parser.MatchAny | mcts/tui.cpp:104-109 | reports exactly whether some offered move is `move_eq` to the written one |
| Parser.ParseMove | mcts/tui.cpp:12-110 | `parse_move` writes the move and accepts it exactly when `available_moves` offers an equal move |
| Parser.ParseMeansLegal | mcts/tui.cpp:12-110 | a parsed move is the written move, accepted exactly when it is itself offered, and it is always legal |
| Parser.NoGapAfterSecondDrop | mcts/tui.cpp:83-101 | a parsed stack move with drop2 = 0 carries nothing past the second cell |
| Parser.ParseTyped | mcts/tui.cpp:12-110 | typing the letters and digits of an offered move gives that move back, for every offered move except those with drop2 = 0 that still reach the third cell |
| AiModel.EncodeBoard | mcts/src/ai_model.cpp:5-29 | the triple loop writes the encoding of every byte of the board |
| AiModel.EncodedMeaning | mcts/src/ai_model.cpp:5-29 | each slot reads negative for player 1, positive for player 2, magnitude 2 for a wall and 1 for a flat, and 0 otherwise, regardless of whose turn it is |
| AiModel.EncodeForMover | mcts/src/ai_model.cpp:5-29 | the corrected encoder writes the engine's encoding, negated throughout when player 2 is to move (see Findings) |
| AiModel.IndexInjective | mcts/src/ai_model.cpp:59-76 | the flattened policy position of an in-layout slot is inside the 4x4x6x7x8x8 policy, and distinct slots get distinct positions |
| AiModel.LegalSlots | mcts/src/ai_model.cpp:59-76 | every offered move reads an in-layout policy entry, and distinct offered moves read distinct entries |
| AiModel.PickedAt | mcts/src/ai_model.cpp:59-76 | the n-th collected value is the policy entry of the n-th move |
| AiModel.CollectPolicy | mcts/src/ai_model.cpp:59-76 | the move loop appends each move's policy entry to the values, in move order |
| AiModel.GetEval | mcts/src/ai_model.cpp:44-80 | returns the network's value head on `encode_board`'s absolute encoding of the board, and the softmax of the old values followed by each move's policy entry, in move order |
| AiModel.GetEvalForMover | mcts/src/ai_model.cpp:44-80 | the corrected `get_eval` (see Findings): the same value and policy, with the network queried on the mover-relative board |
| Dataset.TargetIsSlot | model/dataset.py:15-50 | the training target of a move is the engine's policy slot for every placement and every four-direction stack move; for any other direction the training side has no channel |
| Dataset.LegalTargets | model/dataset.py:15-50 | for every offered move the training target equals the engine's policy slot |
| Dataset.TrainingVersusEngine | model/dataset.py:52-74 | the training encoder accepts a board exactly when every byte is one of 0, 1, 2, 11, 12, and then yields the engine's encoding, negated when player 2 is to move |
| Dataset.PlayerTwoDiverges | model/dataset.py:68-74 | with player 2 to move, a training entry equals the engine's entry exactly when the slot is empty |
| Dataset.OneFlatDiverges | model/dataset.py:68-74 | a concrete board, one player-1 flat with player 2 to move, that the training side encodes as 1 and the engine as -1 |
| Dataset.SideEncodedMatchesTraining | model/dataset.py:52-74 | the corrected, mover-relative engine encoding agrees with the training encoder on every valid board |
| SearchTree.FreshChildState | mcts/src/mcts_bot.cpp:35-67 | a new child holds the game after its move, links to its parent, is unvisited and has no moves; it is ended (and counted as expanded) exactly when its game is over, with value 1 if its player to move won, -1 if the other player won, and 0 for a tie or an unfinished game |
| SearchTree.RootWellFormed | mcts/src/mcts_bot.cpp:233-243 | a lone unexpanded root over an unfinished game satisfies the tree invariant |
| SearchTree.ExpansionValid | mcts/src/mcts_bot.cpp:18-69 | the first visit keeps the tree invariant, marks the node expanded, keeps its identity, appends its non-empty block of children and changes no other node |
| SearchTree.ExpansionVisits | mcts/src/mcts_bot.cpp:18-69 | a freshly expanded node's children have no visits |
| SearchTree.ChildGame | mcts/src/mcts_bot.cpp:35-67 | child i of an expanded node links back to it and holds the game after move i |
| SearchTree.StepValue | mcts/src/mcts_bot.cpp:101-102 | the chosen child's new value is the visit-weighted average of its old value and the negated value it returned |
| SearchTree.SiblingSubtreesKept | mcts/src/mcts_bot.cpp:88-104 | a search step through an expanded node leaves every child other than the one with the first largest bound, and every node below it, unchanged |
| SearchTree.SubtreesApart | mcts/src/mcts_bot.cpp:35-67 | the subtrees of two distinct children of a node share no node |
| SearchTree.UnderChild | mcts/src/mcts_bot.cpp:35-67 | every node below a child of x lies below x |
| SearchTree.FirstMaxUnique | mcts/src/mcts_bot.cpp:88-96 | the child the selection loop picks is determined: there is only one first index of a largest bound |
| SearchTree.StepVisits | mcts/src/mcts_bot.cpp:101-102 | a search step through an expanded node raises its children's total visits by exactly one |
| SearchTree.AverageFixed | mcts/src/mcts_bot.cpp:101-102 | averaging an ended child's value with its own return value leaves the value unchanged |
| SearchTree.RepeatStep | mcts/src/mcts_bot.cpp:126-128 | each further search from a node adds one visit to its children, counting from the expansion |
| SearchTree.SharesSumToOne | mcts/src/mcts_bot.cpp:108-122 | the visit shares sum to exactly 1 and each lies between 0 and 1 |
| SearchTree.ShareBounds | mcts/src/mcts_bot.cpp:108-122 | each visit share lies between 0 and 1 |
| SearchTree.ChosenVisited | mcts/src/mcts_bot.cpp:108-146 | for r >= 0, the move `get_move` picks belongs to a child with at least one visit |
| SearchTree.RecordsChain | mcts/src/mcts_bot.cpp:330-343 | the written records run from the parent up to the root, one per ancestor, with alternating sign |
| SearchTree.WriteStarts | mcts/src/mcts_bot.cpp:330-339 | writing a value into an expanded node keeps the tree invariant and its parent link |
| Mcts.Tree.constructor | mcts/src/mcts_bot.cpp:233-243 | `new_mcts` builds a valid tree holding one unexpanded, unvisited root over the game |
| Mcts.Tree.InitNode | mcts/src/mcts_bot.cpp:18-69 | `init_node` turns the arena into `Expansion` of the old arena: offered moves, evaluation and children appended; it keeps the invariant and no other old node changes |
| Mcts.Tree.AppendChildren | mcts/src/mcts_bot.cpp:35-67 | the children loop appends one fresh child per move, in move order |
| Mcts.Tree.Evaluate | mcts/src/mcts_bot.cpp:22-32 | with the network, the value and softmax policy of `get_eval`; without it, the tile heuristic and a uniform prior of 1/n |
| Mcts.Tree.NewChild | mcts/src/mcts_bot.cpp:36-66 | builds the fresh child of one move |
| Mcts.Tree.BestChild | mcts/src/mcts_bot.cpp:88-96 | returns the first index of maximal confidence `-val + lambda * prior * conf(N)` |
| Mcts.Tree.Search | mcts/src/mcts_bot.cpp:72-105 | an ended node returns its negated value and nothing changes; an unexpanded node is expanded and returns the negation of its new value; otherwise the best child takes one search step of its own (the same contract, recursively), then its average and visit count are updated, and no old node outside that child's subtree changes; the total visits rise by one, and no node outside the searched node's subtree ever changes |
| Mcts.Tree.Descend | mcts/src/mcts_bot.cpp:88-104 | the descent into the best child meets the search step's contract, with the child's own search step as the recursive part |
| Mcts.Tree.Repeat | mcts/src/mcts_bot.cpp:126-128 | `count` searches from a node keep the invariant and leave its children with the old visits plus `count`, or `count - 1` when the first search expands it |
| Mcts.Tree.GetProb | mcts/src/mcts_bot.cpp:108-122 | returns each child's visit count divided by the total, one share per move |
| Mcts.Tree.GetMove | mcts/src/mcts_bot.cpp:125-147 | after the searches, returns the move at the first index whose running share total exceeds r, and no move when none does |
| Selection.Choose | mcts/src/mcts_bot.cpp:137-146 | the selection loop returns the move at the first index whose running total exceeds r, and none when there is no such index |
| Selection.ChoiceBelowOne | mcts/src/mcts_bot.cpp:137-146 | with shares summing to 1, every r below 1 selects a move |
| Selection.ChoiceAtOne | mcts/src/mcts_bot.cpp:137-146 | with non-negative shares summing to 1, r >= 1 selects no move |
| Selection.ChosenPositive | mcts/src/mcts_bot.cpp:137-146 | for r >= 0 the selected share is positive |
| Mcts.Tree.PlayMove | mcts/src/mcts_bot.cpp:150-161 | `mcts_apply_move` expands the node if needed and returns the first child whose move is `move_eq` to the given one; that child holds the game after the move |
| Mcts.Tree.FindChild | mcts/src/mcts_bot.cpp:153-160 | the scan returns the first matching child, and a match always exists for an offered move |
| Mcts.Tree.WriteFrom | mcts/src/mcts_bot.cpp:330-339 | `write_results_r` writes v, -v, v, … into the node and its ancestors and records them in that order, leaving every other node unchanged |
| Mcts.Tree.WriteResults | mcts/src/mcts_bot.cpp:341-343 | `write_results` starts at the final node's parent with the negated final value; the records are those of `FinalRecords` and only those nodes change |

## Left out

- Floating point: every `float` is a real number. The average update, the 1/n
  prior and the visit shares are exact. In particular, the shares summing to
  exactly 1 in `SearchTree.SharesSumToOne` holds for reals. In `float` a
  rounded sum can stay below r, and `get_move` then returns an unset move.
- Selection.ChoiceBelowOne: stated for exact sums; the `float` rounding above
  is not modelled.
- Evaluator:
  - The network, `softmax` and `tiles_eval` are function parameters. So is the
    `sqrtf(1 / (1 + N))` confidence factor.
  - The softmax is assumed to return one value per input (`KeepsLength`).
  - The `torch` tensor calls and the model handle are not modelled.
- `rand()`: the random number r of `get_move` is an input.
- `get_prob`'s temperature assertion is left out: its only value is 1.
- Files and JSON: `write_results` produces a list of (node index, value)
  records instead of writing JSON to a file.
  - The `get_prob` call inside the node serializer is not modelled.
  - Neither are the `tag_invoke` serializers, `move_to_string` and
    `string_to_move`.
- Addresses: nodes live in an arena and refer to their parent and first child by
  index. Node ownership and lifetime are not modelled.
- Mcts.Tree.InitNode: requires a node that is not yet expanded. Every caller in
  mcts/src/mcts_bot.cpp tests `is_initialized` first. A second call in the
  source would append the children again.
- Mcts.Tree.GetMove: requires the searches to leave at least one visit. This
  is `get_prob`'s `assert(N_tot != 0)`, and without it the shares divide by
  zero.
- Mcts.Tree.constructor: requires a game in progress, which `new_mcts`
  documents as an assumption of its callers.
- Mcts.Tree.FindChild: the source's `assert(false)` after the scan becomes a
  branch proved unreachable for an offered move. Its precondition requires
  such a move.
- `mcts_bot.cpp` driver loops are not modelled: `oppose_bots_h`, `oppose_bots`
  and `simulate`. Neither are the TUI game loops (`game_tui_2p`,
  `game_tui_bot`) or `main`. They only sequence the modelled operations and do
  I/O.
- `game_to_string`, `tallest_tower` and `tiles_eval` are not modelled:
  `tiles_eval` is the evaluator parameter, and the other two are display and
  statistics helpers.
- `parse_move`'s reading of `std::cin`, its exit on end of input and the help
  text its `h` branch prints are not modelled; `h` is rejected like any other
  unknown letter. The tokens are parameters: the type letter, the file and rank
  characters, and the rest of the word. Characters are integers.
- `search_line`'s orthogonality test (mcts/src/game.cpp:103-105) is not
  modelled separately. The four directions it is called with always pass it.
- The search loop's repetition count is a `nat`. A negative `int` count simply
  runs no search in the source.
- The value update is stored by the function `Averaged`. It rewrites one arena
  entry instead of assigning a field through an address.
- The Python loader's dataset class and the training script are not modelled.
  Neither is the network architecture.
- `encode_board`'s Python `assert` on an unknown byte is modelled as a `None`
  result.

## Findings

| source | as written | input that shows it | evidently intended | confidence | as-written member | corrected member |
|---|---|---|---|---|---|---|
| mcts/src/ai_model.cpp:5-29 | the engine encodes the board in absolute colours (player 1 negative) whatever the turn, while the training encoder (model/dataset.py:68-74) negates the board when player 2 is to move, so the network is trained on mover-relative boards but queried with absolute ones | player 2 to move, one player-1 flat on a1: the training entry is 1, the engine entry is -1 | the engine encodes from the side of the player to move, as the training data does: the board carries no turn, and the values the search learns from are mover-relative | not executed | Dataset.OneFlatDiverges | Dataset.SideEncodedMatchesTraining |
