/** A* search over boards: an open set ordered by priority, a map from board
    keys to the least depth at which the board was expanded, and path
    reconstruction when a goal board leaves the open set. */
module Search {

  import opened Options
  import opened GameStates
  import opened Nodes

  /** The outcome of a search: the boards and move labels from the initial
      board to a goal, no solution, or the expansion budget spent. */
  datatype SearchResult =
    | Solved(path: seq<GameState>, moves: seq<Option<Move>>)
    | NoSolution
    | OutOfFuel

  /** The visited dictionary: the least depth recorded for each board key. */
  type Visited = map<seq<CarKey>, int>

  /** The test applied to a node before expanding it and to a successor
      before pushing it: its board was never recorded, or was recorded at a
      greater depth. A board recorded at this depth or a smaller one fails
      it. */
  predicate Improves(visited: Visited, s: GameState, depth: int): (r: bool)
    ensures Key(s) !in visited ==> r
    ensures Key(s) in visited && visited[Key(s)] <= depth ==> !r
  {
    Key(s) !in visited || visited[Key(s)] > depth
  }

  // ---------------------------------------------------------------------
  // The open set
  // ---------------------------------------------------------------------

  predicate AllHaveCars(open: seq<Node>)
  {
    forall n :: n in open ==> |n.state.cars| >= 1
  }

  lemma {:induction false} MinimumExists(open: seq<Node>)
    requires open != [] && AllHaveCars(open)
    ensures exists k :: 0 <= k < |open| && forall j :: 0 <= j < |open| ==> Priority(open[k]) <= Priority(open[j])
  {
    if |open| == 1 {
      assert forall j :: 0 <= j < |open| ==> Priority(open[0]) <= Priority(open[j]);
    } else {
      var tail := open[1..];
      assert forall n :: n in tail ==> n in open;
      MinimumExists(tail);
      var k :| 0 <= k < |tail| && forall j :: 0 <= j < |tail| ==> Priority(tail[k]) <= Priority(tail[j]);
      if Priority(open[0]) <= Priority(tail[k]) {
        assert forall j :: 1 <= j < |open| ==> open[j] == tail[j - 1];
        assert forall j :: 0 <= j < |open| ==> Priority(open[0]) <= Priority(open[j]);
      } else {
        assert forall j :: 1 <= j < |open| ==> open[j] == tail[j - 1];
        assert forall j :: 0 <= j < |open| ==> Priority(open[k + 1]) <= Priority(open[j]);
      }
    }
  }

  /** Removes a node of least priority from the open set; every other node
      stays. Which of several least nodes is taken is left open. */
  method PopMin(open: seq<Node>) returns (node: Node, rest: seq<Node>)
    requires open != [] && AllHaveCars(open)
    ensures node in open
    ensures forall n :: n in open ==> Priority(node) <= Priority(n)
    ensures multiset(rest) + multiset{node} == multiset(open)
    ensures |rest| == |open| - 1
    ensures forall n :: n in rest ==> n in open
    ensures forall n :: n in open ==> n == node || n in rest
  {
    MinimumExists(open);
    var k :| 0 <= k < |open| && forall j :: 0 <= j < |open| ==> Priority(open[k]) <= Priority(open[j]);
    node := open[k];
    rest := open[..k] + open[k + 1..];
    assert open == open[..k] + [node] + open[k + 1..];
  }

  /** The successors that pass the test, in their original order. */
  function Unseen(successors: seq<Node>, visited: Visited): (kept: seq<Node>)
    ensures |kept| <= |successors|
    ensures forall c :: c in kept <==> c in successors && Improves(visited, c.state, c.depth)
  {
    if successors == [] then []
    else
      var last := successors[|successors| - 1];
      assert successors == successors[..|successors| - 1] + [last];
      Unseen(successors[..|successors| - 1], visited) + (if Improves(visited, last.state, last.depth) then [last] else [])
  }

  /** The push loop: each successor joins the open set when its board passes
      the test. */
  method PushSuccessors(openSet: seq<Node>, successors: seq<Node>, visited: Visited) returns (pushed: seq<Node>)
    ensures pushed == openSet + Unseen(successors, visited)
  {
    pushed := openSet;
    for k := 0 to |successors|
      invariant pushed == openSet + Unseen(successors[..k], visited)
    {
      var successor := successors[k];
      var newCost := successor.depth;
      assert successors[..k + 1][..k] == successors[..k];
      if Key(successor.state) !in visited || visited[Key(successor.state)] > newCost {
        pushed := pushed + [successor];
      }
    }
    assert successors[..|successors|] == successors;
  }

  // ---------------------------------------------------------------------
  // What the search promises
  // ---------------------------------------------------------------------

  /** A solution: a path of boards from `initial` to a goal, with the move
      labels alongside; the first label is absent and every later one is the
      legal step between consecutive boards. */
  ghost predicate ValidSolution(initial: GameState, path: seq<GameState>, moves: seq<Option<Move>>)
  {
    && |path| >= 1 && |moves| == |path|
    && path[0] == initial && moves[0] == None
    && (forall k :: 1 <= k < |path| ==>
          moves[k].Some? && LegalStep(path[k - 1], Transition(moves[k].value, path[k])))
    && |path[|path| - 1].cars| >= 1 && IsGoal(path[|path| - 1])
  }

  /** Boards reachable from `root` in exactly `m` moves, where `moves(p)`
      lists the moves out of board `p`. */
  ghost predicate ReachableIn(moves: GameState -> seq<Transition>, root: GameState, t: GameState, m: nat)
    decreases m
  {
    if m == 0 then t == root
    else exists p: GameState, tr: Transition :: ReachableIn(moves, root, p, m - 1) && tr in moves(p) && tr.next == t
  }

  /** A property of `root` that every move preserves holds of every board
      reachable from `root`. */
  lemma {:induction false} ReachableKeeps(moves: GameState -> seq<Transition>, holds: GameState -> bool,
                                          root: GameState, t: GameState, m: nat)
    requires holds(root)
    requires forall p, tr :: holds(p) && tr in moves(p) ==> holds(tr.next)
    requires ReachableIn(moves, root, t, m)
    ensures holds(t)
    decreases m
  {
    if m > 0 {
      var p: GameState, tr: Transition :| ReachableIn(moves, root, p, m - 1) && tr in moves(p) && tr.next == t;
      ReachableKeeps(moves, holds, root, p, m - 1);
    }
  }

  /** Generated moves keep the shape of the board. */
  lemma ReachableShape(root: GameState, t: GameState, m: nat)
    requires ReachableIn(Transitions, root, t, m)
    ensures SameShape(t, root)
  {
    var shaped := (p: GameState) => SameShape(p, root);
    forall p, tr | shaped(p) && tr in Transitions(p)
      ensures shaped(tr.next)
    {
      TransitionsLegal(p);
      LegalStepMovesOneCar(p, tr);
    }
    ReachableKeeps(Transitions, shaped, root, t, m);
  }

  /** Every board reachable from a valid board by generated moves is valid. */
  lemma ReachableValid(root: GameState, t: GameState, m: nat)
    requires ValidBoard(root) && ReachableIn(Transitions, root, t, m)
    ensures ValidBoard(t)
  {
    forall p, tr | ValidBoard(p) && tr in Transitions(p)
      ensures ValidBoard(tr.next)
    {
      TransitionsLegal(p);
      LegalStepKeepsValid(p, tr);
    }
    ReachableKeeps(Transitions, ValidBoard, root, t, m);
  }

  /** Every board on a solution from a valid initial board is valid. */
  lemma {:induction false} SolutionBoardsValid(initial: GameState, path: seq<GameState>, moves: seq<Option<Move>>, k: nat)
    requires ValidBoard(initial) && ValidSolution(initial, path, moves) && k < |path|
    ensures ValidBoard(path[k])
  {
    if k > 0 {
      SolutionBoardsValid(initial, path, moves, k - 1);
      LegalStepKeepsValid(path[k - 1], Transition(moves[k].value, path[k]));
    }
  }

  ghost function OpenKeys(open: seq<Node>): set<seq<CarKey>>
  {
    set n | n in open :: Key(n.state)
  }

  ghost function ExpandedKeys(expanded: seq<Node>): set<seq<CarKey>>
  {
    set e | e in expanded :: Key(e.state)
  }

  /** Every successor of `current` is either recorded in `visited` or has
      its board on the open set after the push loop, and nothing leaves the
      open set. */
  lemma PushedCoverSuccessors(current: Node, successors: seq<Node>, visited: Visited, openSet: seq<Node>, pushed: seq<Node>)
    requires successors == Successors(current)
    requires pushed == openSet + Unseen(successors, visited)
    ensures forall tr :: tr in Transitions(current.state) ==> Key(tr.next) in visited || Key(tr.next) in OpenKeys(pushed)
    ensures forall n :: n in openSet ==> n in pushed
    ensures forall n :: n in pushed ==> n in openSet || n in successors
  {
    var ts := Transitions(current.state);
    forall tr | tr in ts
      ensures Key(tr.next) in visited || Key(tr.next) in OpenKeys(pushed)
    {
      var k :| 0 <= k < |ts| && ts[k] == tr;
      var c := successors[k];
      assert c == Child(current, tr);
      if Improves(visited, c.state, c.depth) {
        assert c in pushed;
      }
    }
  }

  ghost function ExpandedStates(expanded: seq<Node>): set<GameState>
  {
    set e | e in expanded :: e.state
  }

  /** A recorded board of the initial board's shape is the board of an
      expanded node. */
  lemma RecordedIsExpanded(initial: GameState, visited: Visited, expanded: seq<Node>, t: GameState)
    requires forall e :: e in expanded ==> SameShape(e.state, initial)
    requires visited.Keys == ExpandedKeys(expanded)
    requires SameShape(t, initial) && Key(t) in visited
    ensures t in ExpandedStates(expanded)
  {
    assert Key(t) in ExpandedKeys(expanded);
    var e :| e in expanded && Key(e.state) == Key(t);
    SameShapeJoin(e.state, t, initial);
    KeyDeterminesState(e.state, t);
  }

  // ---------------------------------------------------------------------
  // The search
  // ---------------------------------------------------------------------

  /** What holds between iterations of the search loop: open and expanded
      nodes lie in the search tree, expanded nodes are not goals and their
      boards are recorded at no more than their depth, a board is expanded
      again only at a smaller depth, the recorded keys are exactly the
      expanded boards' keys, and every move out of an expanded board, as well
      as the initial board, leads to a recorded board or to one on the open
      set. */
  ghost predicate SearchInvariant(initial: GameState, openSet: seq<Node>, visited: Visited, expanded: seq<Node>)
  {
    && InTreeInvariant(initial, openSet, expanded)
    && RecordInvariant(visited, expanded)
    && CoverInvariant(initial, openSet, visited, expanded)
  }

  /** Open and expanded nodes lie in the search tree; expanded nodes are not
      goals. */
  ghost predicate InTreeInvariant(initial: GameState, openSet: seq<Node>, expanded: seq<Node>)
  {
    && (forall n :: n in openSet ==> InTree(n, initial) && SameShape(n.state, initial))
    && (forall e :: e in expanded ==> InTree(e, initial) && SameShape(e.state, initial) && |initial.cars| >= 1 && !IsGoal(e.state))
  }

  /** The recorded keys are the expanded boards' keys, each recorded at no
      more than the depth of any expansion of it, and a board is expanded
      again only at a smaller depth. */
  ghost predicate RecordInvariant(visited: Visited, expanded: seq<Node>)
  {
    && (forall e :: e in expanded ==> Key(e.state) in visited && visited[Key(e.state)] <= e.depth)
    && (forall a, b :: 0 <= a < b < |expanded| && Key(expanded[a].state) == Key(expanded[b].state) ==>
          expanded[b].depth < expanded[a].depth)
    && visited.Keys == ExpandedKeys(expanded)
  }

  /** Every move out of an expanded board, and the initial board itself,
      leads to a recorded board or to one on the open set. */
  ghost predicate CoverInvariant(initial: GameState, openSet: seq<Node>, visited: Visited, expanded: seq<Node>)
  {
    && (forall e, tr :: e in expanded && tr in Transitions(e.state) ==>
          Key(tr.next) in visited || Key(tr.next) in OpenKeys(openSet))
    && (Key(initial) in visited || Key(initial) in OpenKeys(openSet))
  }

  lemma InitialInvariant(initial: GameState)
    ensures SearchInvariant(initial, [Node(initial, 0, None, None)], map[], [])
  {
    var startNode := Node(initial, 0, None, None);
    assert Key(initial) in OpenKeys([startNode]);
    assert ExpandedKeys([]) == {};
  }

  /** Discarding a popped node whose board is already recorded at no greater
      depth keeps the invariant. */
  lemma DiscardKeepsInvariant(initial: GameState, openSet: seq<Node>, visited: Visited, expanded: seq<Node>,
                              current: Node, rest: seq<Node>)
    requires SearchInvariant(initial, openSet, visited, expanded)
    requires forall n :: n in openSet ==> n == current || n in rest
    requires forall n :: n in rest ==> n in openSet
    requires !Improves(visited, current.state, current.depth)
    ensures SearchInvariant(initial, rest, visited, expanded)
  {
    assert forall k :: k in OpenKeys(openSet) ==> k == Key(current.state) || k in OpenKeys(rest);
  }

  /** Expanding a popped non-goal node whose board passes the test, and
      pushing its successors that pass it, keeps the invariant. */
  lemma ExpandKeepsInvariant(initial: GameState, openSet: seq<Node>, visited: Visited, expanded: seq<Node>,
                             current: Node, rest: seq<Node>, pushed: seq<Node>)
    requires |initial.cars| >= 1
    requires SearchInvariant(initial, openSet, visited, expanded)
    requires current in openSet
    requires forall n :: n in openSet ==> n == current || n in rest
    requires forall n :: n in rest ==> n in openSet
    requires !IsGoal(current.state)
    requires Improves(visited, current.state, current.depth)
    requires pushed == rest + Unseen(Successors(current), visited[Key(current.state) := current.depth])
    ensures SearchInvariant(initial, pushed, visited[Key(current.state) := current.depth], expanded + [current])
  {
    var visited' := visited[Key(current.state) := current.depth];
    PushedCoverSuccessors(current, Successors(current), visited', rest, pushed);
    ExpandKeepsInTree(initial, openSet, expanded, current, rest, pushed);
    ExpandKeepsRecord(visited, expanded, current);
    ExpandKeepsCover(initial, openSet, visited, expanded, current, rest, pushed);
  }

  lemma ExpandKeepsInTree(initial: GameState, openSet: seq<Node>, expanded: seq<Node>,
                          current: Node, rest: seq<Node>, pushed: seq<Node>)
    requires |initial.cars| >= 1
    requires InTreeInvariant(initial, openSet, expanded)
    requires current in openSet && !IsGoal(current.state)
    requires forall n :: n in rest ==> n in openSet
    requires forall n :: n in pushed ==> n in rest || n in Successors(current)
    ensures InTreeInvariant(initial, pushed, expanded + [current])
  {
    SuccessorFacts(current);
    forall n | n in pushed
      ensures InTree(n, initial) && SameShape(n.state, initial)
    {
      if n !in rest {
        InTreeFacts(n, initial);
      }
    }
  }

  lemma ExpandKeepsRecord(visited: Visited, expanded: seq<Node>, current: Node)
    requires RecordInvariant(visited, expanded)
    requires Improves(visited, current.state, current.depth)
    ensures RecordInvariant(visited[Key(current.state) := current.depth], expanded + [current])
  {
    var visited' := visited[Key(current.state) := current.depth];
    var expanded' := expanded + [current];
    assert ExpandedKeys(expanded') == ExpandedKeys(expanded) + {Key(current.state)};
    forall e | e in expanded'
      ensures Key(e.state) in visited' && visited'[Key(e.state)] <= e.depth
    {
      if e != current {
        assert e in expanded;
      }
    }
    forall a, b | 0 <= a < b < |expanded'| && Key(expanded'[a].state) == Key(expanded'[b].state)
      ensures expanded'[b].depth < expanded'[a].depth
    {
      if b == |expanded| {
        assert expanded'[a] in expanded;
      }
    }
  }

  lemma ExpandKeepsCover(initial: GameState, openSet: seq<Node>, visited: Visited, expanded: seq<Node>,
                         current: Node, rest: seq<Node>, pushed: seq<Node>)
    requires CoverInvariant(initial, openSet, visited, expanded)
    requires forall n :: n in openSet ==> n == current || n in rest
    requires forall n :: n in rest ==> n in pushed
    requires forall tr :: tr in Transitions(current.state) ==>
      Key(tr.next) in visited[Key(current.state) := current.depth] || Key(tr.next) in OpenKeys(pushed)
    ensures CoverInvariant(initial, pushed, visited[Key(current.state) := current.depth], expanded + [current])
  {
    var visited' := visited[Key(current.state) := current.depth];
    assert forall k :: k in OpenKeys(openSet) ==> k == Key(current.state) || k in OpenKeys(rest);
    assert forall k :: k in OpenKeys(rest) ==> k in OpenKeys(pushed);
    forall e, tr | e in expanded + [current] && tr in Transitions(e.state)
      ensures Key(tr.next) in visited' || Key(tr.next) in OpenKeys(pushed)
    {
      if e != current {
        assert e in expanded;
      }
    }
  }

  /** With the open set empty, the expanded boards are closed under
      generated moves. */
  lemma ClosedStep(initial: GameState, visited: Visited, expanded: seq<Node>, p: GameState, tr: Transition)
    requires forall e :: e in expanded ==> SameShape(e.state, initial)
    requires visited.Keys == ExpandedKeys(expanded)
    requires forall e, tr :: e in expanded && tr in Transitions(e.state) ==>
      Key(tr.next) in visited || Key(tr.next) in OpenKeys([])
    requires p in ExpandedStates(expanded) && tr in Transitions(p)
    ensures tr.next in ExpandedStates(expanded)
  {
    var e :| e in expanded && e.state == p;
    assert Key(tr.next) in visited;
    TransitionsLegal(p);
    LegalStepMovesOneCar(p, tr);
    RecordedIsExpanded(initial, visited, expanded, tr.next);
  }

  /** No board reachable from `initial` by generated moves is a goal. */
  ghost predicate Unsolvable(initial: GameState)
    requires |initial.cars| >= 1
  {
    forall t, m: nat :: ReachableIn(Transitions, initial, t, m) ==> SameShape(t, initial) && !IsGoal(t)
  }

  /** With the open set empty, no board reachable by generated moves is a
      goal. */
  lemma ExhaustedMeansUnsolvable(initial: GameState, visited: Visited, expanded: seq<Node>)
    requires |initial.cars| >= 1
    requires SearchInvariant(initial, [], visited, expanded)
    ensures Unsolvable(initial)
  {
    var closed := ExpandedStates(expanded);
    forall p, tr | p in closed && tr in Transitions(p)
      ensures tr.next in closed
    {
      ClosedStep(initial, visited, expanded, p, tr);
    }
    RecordedIsExpanded(initial, visited, expanded, initial);
    forall t, m: nat | ReachableIn(Transitions, initial, t, m)
      ensures SameShape(t, initial) && !IsGoal(t)
    {
      ReachableShape(initial, t, m);
      ReachableKeeps(Transitions, p => p in closed, initial, t, m);
    }
  }

  /** The path to a goal node of the search tree is a solution. */
  lemma GoalPathIsSolution(initial: GameState, goal: Node)
    requires InTree(goal, initial) && SameShape(goal.state, initial) && |initial.cars| >= 1
    requires IsGoal(goal.state)
    ensures ValidSolution(initial, PathStates(goal), PathMoves(goal))
  {
    InTreeFacts(goal, initial);
  }

  /** The work on a popped node that is not a goal: when its board passes
      the test, record the board at the node's depth, generate the
      successors and push those that pass the test against the updated
      record; otherwise drop the node. An expansion with no budget left
      stops the search instead. */
  method Visit(initial: GameState, openSet: seq<Node>, visited: Visited, ghost expanded: seq<Node>, budget: nat,
               currentNode: Node, rest: seq<Node>)
      returns (openSet': seq<Node>, visited': Visited, ghost expanded': seq<Node>, budget': nat, outOfFuel: bool)
    requires |initial.cars| >= 1
    requires SearchInvariant(initial, openSet, visited, expanded)
    requires currentNode in openSet && !IsGoal(currentNode.state)
    requires forall n :: n in openSet ==> n == currentNode || n in rest
    requires forall n :: n in rest ==> n in openSet
    requires |rest| < |openSet|
    ensures outOfFuel <==> Improves(visited, currentNode.state, currentNode.depth) && budget == 0
    ensures outOfFuel ==> expanded' == expanded
    ensures !outOfFuel && Improves(visited, currentNode.state, currentNode.depth) ==>
      && visited' == visited[Key(currentNode.state) := currentNode.depth]
      && openSet' == rest + Unseen(Successors(currentNode), visited')
      && expanded' == expanded + [currentNode]
      && budget' == budget - 1
    ensures !Improves(visited, currentNode.state, currentNode.depth) ==>
      openSet' == rest && visited' == visited && expanded' == expanded && budget' == budget
    ensures !outOfFuel ==> SearchInvariant(initial, openSet', visited', expanded')
  {
    openSet' := rest;
    visited' := visited;
    expanded' := expanded;
    budget' := budget;
    outOfFuel := false;
    if Key(currentNode.state) !in visited || visited[Key(currentNode.state)] > currentNode.depth {
      if budget == 0 {
        outOfFuel := true;
        return;
      }
      budget' := budget - 1;
      visited' := visited[Key(currentNode.state) := currentNode.depth];
      var successors := GenerateSuccessor(currentNode);
      openSet' := PushSuccessors(rest, successors, visited');
      ExpandKeepsInvariant(initial, openSet, visited, expanded, currentNode, rest, openSet');
      expanded' := expanded + [currentNode];
    } else {
      DiscardKeepsInvariant(initial, openSet, visited, expanded, currentNode, rest);
    }
  }

  /** A* from `initial`. Expansions are bounded by `fuel`; the ghost output
      `expanded` lists the expanded nodes in order.

      A solution is a legal path to a goal; a goal initial board is answered
      with itself; "no solution" means no goal is reachable by generated
      moves; every expanded node lies in the search tree and is not a goal;
      and a board is expanded again only at a strictly smaller depth. */
  method AStar(initial: GameState, fuel: nat) returns (result: SearchResult, ghost expanded: seq<Node>)
    requires |initial.cars| >= 1
    ensures result.Solved? ==> ValidSolution(initial, result.path, result.moves)
    ensures IsGoal(initial) ==> result == Solved([initial], [None])
    ensures result.NoSolution? ==> Unsolvable(initial)
    ensures forall e :: e in expanded ==> InTree(e, initial) && SameShape(e.state, initial) && !IsGoal(e.state)
    ensures forall a, b :: 0 <= a < b < |expanded| && Key(expanded[a].state) == Key(expanded[b].state) ==>
      expanded[b].depth < expanded[a].depth
    ensures |expanded| <= fuel
    ensures result.OutOfFuel? ==> |expanded| == fuel
  {
    var startNode := Node(initial, 0, None, None);
    var openSet := [startNode];
    var visited: Visited := map[];
    expanded := [];
    var budget := fuel;
    InitialInvariant(initial);
    while openSet != []
      invariant SearchInvariant(initial, openSet, visited, expanded)
      invariant IsGoal(initial) ==> openSet == [startNode] && expanded == []
      invariant |expanded| + budget == fuel
      decreases budget, |openSet|
    {
      var currentNode, rest := PopMin(openSet);

      if IsGoal(currentNode.state) {
        GoalPathIsSolution(initial, currentNode);
        var path, moves := ReconstructPath(currentNode);
        result := Solved(path, moves);
        return;
      }

      var outOfFuel;
      openSet, visited, expanded, budget, outOfFuel := Visit(initial, openSet, visited, expanded, budget, currentNode, rest);
      if outOfFuel {
        result := OutOfFuel;
        return;
      }
    }
    result := NoSolution;
    ExhaustedMeansUnsolvable(initial, visited, expanded);
  }

}
