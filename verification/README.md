# Rush Hour solver — a verified model

This project models the core of a Rush Hour puzzle solver. A board
(`GameState`) is an ordered list of cars and the grid's row and column
counts. Car 0 is the target car. Each car has its leading cell, an
orientation (`'h'` or `'v'`) and a length. The solver runs A* over boards:

- the priority of a node is its depth plus a blocking-car heuristic;
- a node's successors slide one car up to the nearest car or grid edge in
  its way, in each direction its axis allows and that an adjacency
  pre-filter does not rule out;
- a dictionary records the least depth at which each board was expanded;
- when a goal board leaves the open set, the path of boards and move labels
  is rebuilt by following the parent links.

The project has four modules:

- `Cars` (`car.dfy`) — the car record and its front edge.
- `GameStates` (`gamestate.dfy`) — state equality, the goal test, the
  heuristic, the four slide-distance scans, the four slides and the blocked
  direction pre-filter. Each scan the source writes as a loop is a method
  proved equal to a function that specifies it.
- `Nodes` (`node.dfy`) — search nodes, the priority order, successor
  generation and path reconstruction.
- `Search` (`search.dfy`) — the A* loop. It is proved to have these
  properties:
  - a returned path is a legal solution;
  - "no solution" means no goal is reachable by the generated moves;
  - a board is expanded again only at a strictly smaller depth.

Boundary safety is proved for valid boards. A board is valid when every car
lies inside the grid and no two cars share a cell. Every generated move keeps
a valid board valid (`SlideKeepsValid`, `LegalStepKeepsValid`,
`ReachableValid`). The up scan's strict `<` misses a vertical car right
above, so this rests on the pre-filter (`UnfilteredUpSlideCollides`).

Boards, cars and nodes are values. The source never mutates a board it has
built: every slide copies the car list and then changes the copy. Car
identity (`other_car == car`, `cars.index(car)`) becomes the car's index in
the list.

## Model

| member | source | states |
|---|---|---|
| Cars.Front | structure/car.py:8-13 | For a car of positive length, the front lies beyond the leading cell. The cells from the leading cell up to, but not including, the front are exactly the cells the car covers. |
| Cars.FrontIsExclusiveEdge | structure/car.py:8-13 | The front is the first cell past the car: the car covers the cell just before it and not the front cell itself. |
| GameStates.Interval | structure/gamestate.py:380-384 | `x` is in the interval exactly when `start <= x < start + length`. |
| GameStates.IntervalSize | structure/gamestate.py:380-384 | The interval holds `length` integers, or none when the length is not positive. |
| GameStates.Key | structure/gamestate.py:10-18 | A board's key has one entry per car: that car's row, column and orientation. |
| GameStates.StateEq | structure/gamestate.py:10-14 | A board equals itself, and a board with no cars equals every board. For car lists of the same length, state equality holds exactly when the keys are equal. This is why the visited dictionary is keyed by `Key`. |
| GameStates.StateEqIgnoresLength | structure/gamestate.py:10-14 | State equality does not look at car lengths. |
| GameStates.StateEqNotTransitive | structure/gamestate.py:10-14 | The pairwise zip compares only the common prefix, so state equality is not transitive across lists of different lengths (an explicit counterexample). |
| GameStates.KeyDeterminesState | structure/gamestate.py:10-18 | Two boards with the same shape and the same key are the same board. |
| GameStates.IsGoal | structure/gamestate.py:20-35 | Only a horizontal or vertical target can be out. A horizontal target is out exactly when its front reaches `numCols - 1`. A vertical target is out exactly when its column is at most 0. |
| GameStates.GoalRule | structure/gamestate.py:20-35 | A target of any other orientation is never out. The goal depends only on the target car and the column count. |
| GameStates.BlockingBefore | structure/gamestate.py:49-74 | Among the first `n` cars, fewer than `n` count as blocking (the target never counts itself). |
| GameStates.NoBlockersOffAxis | structure/gamestate.py:47-76 | A target that is neither horizontal nor vertical has no blockers. |
| GameStates.HeuristicValue | structure/gamestate.py:37-76 | The heuristic is 0 exactly at a goal. Otherwise it lies between 1 and the number of cars. |
| GameStates.Heuristic | structure/gamestate.py:37-76 | The loop returns `HeuristicValue`: 0 at a goal, otherwise 1 plus the number of other cars in the target's way. |
| GameStates.GapsBeforeSound | structure/gamestate.py:89-212 | Every gap a scan collects (max_up 89-104, max_down 121-136, max_right 156-174, max_left 195-212) comes from a counted car other than the moving one. |
| GameStates.GapsBeforeComplete | structure/gamestate.py:89-212 | In each of the four scans, every counted car other than the moving one contributes its gap. |
| GameStates.Least | structure/gamestate.py:106-108 | The result is an element of the set and no larger than any element. |
| GameStates.MinOf | structure/gamestate.py:107 | The loop returns an element of the set that is no larger than any element (the built-in `min`). |
| GameStates.MaxUp | structure/gamestate.py:78-112 | Returns `MaxSlide(Up)`: 0 on row 0, otherwise the least gap to a counted car above, or the car's row when there is none. |
| GameStates.MaxDown | structure/gamestate.py:114-145 | Returns `MaxSlide(Down)`: 0 at the bottom, otherwise the least gap to a counted car below, or the run to the bottom. |
| GameStates.MaxRight | structure/gamestate.py:147-184 | Returns `MaxSlide(Right)`: 0 at the right edge, otherwise the least gap to a counted car on the right, or the run to the edge. |
| GameStates.MaxLeft | structure/gamestate.py:186-220 | Returns `MaxSlide(Left)`: 0 in column 0, otherwise the least gap to a counted car on the left, or the car's column. |
| GameStates.MaxSlide | structure/gamestate.py:78-220 | The slide distance is 0 at the edge. Away from the edge, when some car is counted, it is one of the counted gaps. |
| GameStates.MaxSlideCases | structure/gamestate.py:78-220 | The slide distance has three cases. It is 0 at the edge. It is the full run to the edge when no car is counted. Otherwise it is a counted gap no larger than any other counted gap. |
| GameStates.MaxUpLeftBounds | structure/gamestate.py:78-220 | With non-negative coordinates and positive lengths, the upward distance of max_up (lines 78-112) lies between 0 and the car's row. The leftward distance of max_left (lines 186-220) lies between 0 and its column. |
| GameStates.MaxRightNonNegative | structure/gamestate.py:147-184 | Every counted gap to the right is non-negative. The distance is non-negative while the car lies inside the grid. |
| GameStates.GoUp | structure/gamestate.py:222-237 | The moved car's row drops by the distance. Its column, orientation and length stay, as do the car count and the grid size. |
| GameStates.GoDown | structure/gamestate.py:239-254 | The moved car's row grows by the distance. Its column, orientation and length stay, as do the car count and the grid size. |
| GameStates.GoRight | structure/gamestate.py:256-271 | The moved car's column grows by the distance. Its row, orientation and length stay, as do the car count and the grid size. |
| GameStates.GoLeft | structure/gamestate.py:273-288 | The moved car's column drops by the distance. Its row, orientation and length stay, as do the car count and the grid size. |
| GameStates.Slide | structure/gamestate.py:222-288 | A slide keeps the car count and the grid size. It changes the moved car exactly when the distance is non-zero. |
| GameStates.SlideMovesOnlyThatCar | structure/gamestate.py:222-288 | A slide keeps the board's shape and every other car. It shifts the moved car's row (up or down) or column (left or right) by the distance. A non-zero slide changes the board under state equality. |
| GameStates.SlideRoundTrip | structure/gamestate.py:222-288 | Sliding back the same distance in the opposite direction restores the board. |
| GameStates.SlideOtherKeepsGoal | structure/gamestate.py:20-35 | Sliding any car other than the target does not change the goal test. |
| GameStates.BlockedBefore | structure/gamestate.py:290-377 | The pre-filter flags only directions on the car's own axis. It flags nothing for a car with any other orientation. The edge flags are always included. |
| GameStates.BlockedBeforeGrows | structure/gamestate.py:307-314 | Scanning more cars only adds flags. This justifies the early `break`. |
| GameStates.Blocked | structure/gamestate.py:290-377 | The flags of a horizontal car are among `'l'` and `'r'`, and those of a vertical car among `'u'` and `'d'`. A car with any other orientation gets no flags. The edge flags are always included. |
| GameStates.BlockedBeforeCovers | structure/gamestate.py:307-375 | After the first `n` cars, the flags are the edge flags and the flags of those cars other than the scanned one: each such car's flags are included, and every flag comes from the edge or from one of them. |
| GameStates.BlockedExactly | structure/gamestate.py:290-377 | The pre-filter's flags are exactly the edge flags together with the flags of every other car. |
| GameStates.BlockedDirections | structure/gamestate.py:290-377 | The pre-filter returns `Blocked`: the edge flags plus the flags from every other car lying right next to the car. |
| GameStates.ScanHorizontal | structure/gamestate.py:307-334 | The scan for a horizontal car, including its early exit, returns `Blocked`. |
| GameStates.ScanVertical | structure/gamestate.py:347-375 | The scan for a vertical car, including its early exit, returns `Blocked`. |
| GameStates.BlockedAtEdgeRules | structure/gamestate.py:297-344 | For a horizontal car, `'l'` is flagged at column 0 and `'r'` when its front equals `numCols - 1`. For a vertical car, `'u'` is flagged at row 0 and `'d'` when its front equals `numRows - 1`. |
| GameStates.BlockedRightOneCellEarly | structure/gamestate.py:303-305 | The right-edge flag fires one cell before the edge. In the example, a lone horizontal car is flagged as blocked to the right although the right scan would let it move one cell. |
| GameStates.UpScanMissesAdjacentVertical | structure/gamestate.py:100-104 | On every board, the up scan's strict `<` skips a vertical car directly above a vertical car in the same column: that car yields no gap. The pre-filter flags `'u'` on every such board, so no such move is generated. |
| GameStates.ApartIsNoSharedCell | structure/car.py:8-13 | For cars of positive length, being apart holds exactly when no cell is covered by both. |
| GameStates.GapInsideRun | structure/gamestate.py:89-212 | On a valid board, a counted gap to another car is never negative and is smaller than the run to the grid edge. |
| GameStates.MaxSlideWithinRun | structure/gamestate.py:78-220 | On a valid board, the slide distance never exceeds the run to the grid edge. |
| GameStates.ShiftedInGrid | structure/gamestate.py:222-288 | A car moved no further than its run to the edge stays inside the grid. |
| GameStates.ShiftedStaysApart | structure/gamestate.py:78-377 | A car moved no further than its gap to another car, in a direction that car does not block by adjacency, stays apart from it. |
| GameStates.SlideStaysApart | structure/gamestate.py:78-377 | When the pre-filter lets the direction through, the full slide keeps the car apart from every other car. |
| GameStates.SlideIsShift | structure/gamestate.py:222-288 | A slide replaces the moved car by its shifted copy and keeps everything else. |
| GameStates.ReplaceKeepsValid | structure/gamestate.py:222-288 | Replacing one car of a valid board by a car inside the grid and apart from all others gives a valid board. |
| GameStates.SlideKeepsValid | structure/gamestate.py:78-377 | Boundary safety: the full slide of a car, in a direction the pre-filter lets through and by a positive distance, keeps a valid board valid. Every car stays inside the grid and no two cars share a cell. |
| GameStates.UnfilteredUpSlideCollides | structure/gamestate.py:100-104 | The pre-filter is needed. On a valid board with a vertical car right above car 0, the up scan reports 2. The `'u'` flag of lines 369-371 is set, and the unfiltered slide would put car 0 on the other car. |
| GameStates.UpScanMissExample | structure/gamestate.py:78-112 | A board where car 1 sits directly above car 0. The up scan reports the full run of 2, and the pre-filter flags `'u'`. |
| Nodes.Priority | structure/node.py:11-12 | The priority is at least the depth and at most the depth plus the car count. It equals the depth exactly at a goal board. |
| Nodes.Less | structure/node.py:17-18 | A node whose depth plus car count is below another's depth comes first. So does a goal node of smaller depth. A node that comes first has depth below the other's depth plus its car count. |
| Nodes.LessIsStrictWeakOrder | structure/node.py:17-18 | The heap order is irreflexive, transitive and asymmetric. Two nodes are incomparable exactly when their priorities are equal. |
| Nodes.CarTransitions | structure/node.py:28-69 | One car yields at most two moves. |
| Nodes.ConcatMembers | structure/node.py:23-69 | A move is among the first `n` cars' moves exactly when one of those cars produces it. |
| Nodes.ConcatLength | structure/node.py:23-69 | When each car yields at most two moves, `n` cars yield at most `2n`. |
| Nodes.CarTransitionsLegal | structure/node.py:28-69 | Every move a car's scan produces is a legal step of that car: on its axis, not flagged by the pre-filter, by the full positive slide distance, to the slid board. |
| Nodes.TransitionsLegal | structure/node.py:23-69 | Every generated move is a legal step. |
| Nodes.LegalStepKeepsValid | structure/node.py:28-69 | A legal step from a valid board gives a valid board. |
| Nodes.LegalIsCarTransition | structure/node.py:28-69 | Every legal step of a car is among that car's generated moves. |
| Nodes.LegalIsGenerated | structure/node.py:23-69 | Every legal step is generated. With `TransitionsLegal`, the generated moves are exactly the legal steps. |
| Nodes.LegalStepMovesOneCar | structure/node.py:28-69 | A legal step keeps the board's shape and every other car, and changes the moved car. Moving a car other than the target keeps the goal test. |
| Nodes.Child | structure/node.py:39 | The child is one level deeper than its parent, links back to it, and carries the move as its label. |
| Nodes.ChildExtendsPath | structure/node.py:39 | A child has one more parent link than its parent. Its path of boards and labels is the parent's, extended by the new board and the move. |
| Nodes.ChildrenOf | structure/node.py:39 | Child `k` is the node for move `k`: one level deeper, with the parent link and the move label. |
| Nodes.SuccessorFacts | structure/node.py:20-71 | A node has at most two successors per car. Each successor is one level deeper, links back to its parent, carries a label and is reached by a legal step. |
| Nodes.LegalStepIsSuccessor | structure/node.py:20-71 | The child for every legal step is a successor. |
| Nodes.CarSuccessors | structure/node.py:23-69 | One car's iteration appends exactly the children of that car's moves. A vertical car tries up then down, a horizontal car left then right. A car with any other orientation adds nothing. |
| Nodes.ChildConcatIsChildren | structure/node.py:23-69 | Collecting children car by car yields the children of all moves of the cars scanned so far. |
| Nodes.GenerateSuccessor | structure/node.py:20-71 | The successor list is exactly the children of all generated moves, in car order. |
| Nodes.Root | structure/node.py:85-89 | The top of the parent chain has no parent. |
| Nodes.PathStates | structure/node.py:73-93 | The path has one more board than there are parent links. It starts at the root's board and ends at the node's board. |
| Nodes.PathMoves | structure/node.py:73-93 | The labels line up with `PathStates`: the root's label first and the node's label last. |
| Nodes.Reverse | structure/node.py:91-92 | The reversal has the same length, with element `k` taken from position `len - 1 - k`. |
| Nodes.ReconstructPath | structure/node.py:73-93 | The walk up the parent links, followed by the reversal, returns the boards and labels from the root down to the node. |
| Nodes.InTreeFacts | structure/node.py:20-93 | For a node of the search tree grown from a root board: the node keeps the root's shape and its depth counts its parent links. Its path starts at the root board with no label, and every later label is the legal step between consecutive boards. |
| Search.Improves | structure/search.py:33-39 | A board that was never recorded passes the visited test. A board recorded at the node's depth or a smaller one fails it. |
| Search.MinimumExists | structure/search.py:26 | A non-empty open set has a node of least priority. |
| Search.PopMin | structure/search.py:26 | Returns a node of least priority. The rest is the open set with exactly that one occurrence removed, as a multiset. |
| Search.Unseen | structure/search.py:37-40 | The kept successors are exactly those whose board is unrecorded or recorded at a greater depth. |
| Search.PushSuccessors | structure/search.py:37-40 | The push loop appends exactly the successors that pass the visited test. |
| Search.ReachableKeeps | structure/search.py:24-43 | A property of the root that every move preserves holds of every reachable board. |
| Search.ReachableShape | structure/search.py:24-43 | Every board reachable by generated moves has the initial board's shape. |
| Search.ReachableValid | structure/search.py:24-43 | From a valid initial board, every board reachable by generated moves is valid. |
| Search.SolutionBoardsValid | structure/search.py:29-30 | From a valid initial board, every board on a solution is valid. |
| Search.PushedCoverSuccessors | structure/search.py:37-40 | After the push, every move out of the expanded board leads to a recorded board or to one on the open set. Nothing is lost from the open set. |
| Search.RecordedIsExpanded | structure/search.py:33-34 | A recorded board of the initial board's shape is the board of an expanded node. |
| Search.InitialInvariant | structure/search.py:17-22 | The start node alone on the open set, with nothing recorded, satisfies the search invariant. |
| Search.DiscardKeepsInvariant | structure/search.py:33 | Dropping a popped node whose board is already recorded at no greater depth keeps the invariant. |
| Search.ExpandKeepsInvariant | structure/search.py:33-40 | Recording a popped non-goal node and pushing its passing successors keeps the invariant. |
| Search.ExpandKeepsInTree | structure/search.py:37-40 | After an expansion, every open and expanded node lies in the search tree, and expanded nodes are not goals. |
| Search.ExpandKeepsRecord | structure/search.py:33-34 | After an expansion, the recorded keys are exactly the expanded boards' keys, each at no more than its expansion depth. A board is expanded again only at a smaller depth. |
| Search.ExpandKeepsCover | structure/search.py:33-40 | After an expansion, every move out of an expanded board leads to a recorded board or to an open one. |
| Search.ClosedStep | structure/search.py:24-43 | With the open set empty, the expanded boards are closed under generated moves. |
| Search.ExhaustedMeansUnsolvable | structure/search.py:24-43 | When the open set runs dry, no board reachable from the initial board is a goal. |
| Search.GoalPathIsSolution | structure/search.py:29-30 | The path to a goal node of the search tree is a valid solution. |
| Search.Visit | structure/search.py:33-40 | The popped non-goal node is handled in one of two ways. If its board passes the visited test, the board is recorded at the node's depth and the passing successors are pushed. Otherwise the node is dropped. Either way the search invariant is kept. |
| Search.AStar | structure/search.py:5-43 | A returned path is a valid solution, and a goal initial board is answered with itself. "No solution" means no reachable board is a goal. Every expanded node lies in the search tree and is not a goal. A board is expanded again only at a strictly smaller depth. `OutOfFuel` is returned only once the whole budget of expansions has been spent. |

## Left out

- main.py and structure/get_inp.py (reading the puzzle, then printing `Test #i: ` followed by the move count or "No solution found.") are input and output. They are not part of this model.
- `GameState.__hash__` (structure/gamestate.py:16-18) is not modelled as a hash. The visited dictionary is keyed by `Key` (row, column and orientation of each car). Boards reached from one start share their car lengths, so lookups by `__hash__` and `__eq__` agree with lookups by `Key` (`KeyDeterminesState`, `ReachableShape`).
- `Node.__eq__` (structure/node.py:14-15) is not used by the heap or the search, and it is not modelled.
- Move labels are the `Move` datatype (car index, old position, direction, distance), not formatted strings.
- Search.PopMin: the heap returns some node of least priority. The model allows any such node and does not model `heapq`'s tie-breaking among nodes of equal priority.
- Search.AStar: takes an expansion budget `fuel` and can answer `OutOfFuel`, which the source cannot. It does so only after `fuel` expansions. Termination of the unbounded loop is not proved. Optimality of the returned path is not proved, and neither is admissibility of the heuristic.
- Nodes.Priority, GameStates.HeuristicValue, GameStates.IsGoal and Search.AStar require at least one car. The source indexes `cars[0]` and raises on an empty board.
- The `if new_state_*:` tests in structure/node.py:37-68 are always true (a board object is always truthy), so the model leaves them out.
- `cars.index(car)` compares by identity, and every car in a board is a distinct object, so it is the loop index in the model.
- Several loop bodies are separate methods, each proved against the same function as the loop it belongs to: the per-car body of `generate_successor` (`CarSuccessors`), the two scans of `blocked_directions`, and the popped-node step and push loop of `a_star` (`Visit`, `PushSuccessors`).
