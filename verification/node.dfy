/** Search nodes: a board with its depth, a link to the node it was reached
    from and the label of the move that reached it. */
module Nodes {

  import opened Options
  import opened Cars
  import opened GameStates

  /** A move label: the car's index, the position it moved from, the
      direction and the number of cells. */
  datatype Move = Move(car: nat, row: int, col: int, dir: Dir, distance: int)

  datatype Node = Node(state: GameState, depth: int, cameFrom: Option<Node>, move: Option<Move>)

  // ---------------------------------------------------------------------
  // Priority
  // ---------------------------------------------------------------------

  /** The A* priority: depth plus heuristic. It is never below the depth, and
      equals it exactly on a goal state. */
  function Priority(n: Node): (p: int)
    requires |n.state.cars| >= 1
    ensures n.depth <= p <= n.depth + |n.state.cars|
    ensures p == n.depth <==> IsGoal(n.state)
  {
    n.depth + HeuristicValue(n.state)
  }

  /** The node order used by the open set: by priority alone. A node whose
      depth plus car count is below another's depth comes first, and so does
      a goal node shallower than the other. */
  predicate Less(a: Node, b: Node): (before: bool)
    requires |a.state.cars| >= 1 && |b.state.cars| >= 1
    ensures a.depth + |a.state.cars| < b.depth ==> before
    ensures IsGoal(a.state) && a.depth < b.depth ==> before
    ensures before ==> a.depth < b.depth + |b.state.cars|
  {
    Priority(a) < Priority(b)
  }

  /** `Less` is a strict weak order: irreflexive and transitive, and two
      nodes are incomparable exactly when their priorities are equal. */
  lemma LessIsStrictWeakOrder(a: Node, b: Node, c: Node)
    requires |a.state.cars| >= 1 && |b.state.cars| >= 1 && |c.state.cars| >= 1
    ensures !Less(a, a)
    ensures Less(a, b) && Less(b, c) ==> Less(a, c)
    ensures !Less(a, b) && !Less(b, a) <==> Priority(a) == Priority(b)
    ensures Less(a, b) ==> !Less(b, a)
  {
  }

  // ---------------------------------------------------------------------
  // Transitions: what successor generation produces, at the level of states
  // ---------------------------------------------------------------------

  /** A labelled move and the state it leads to. */
  datatype Transition = Transition(move: Move, next: GameState)

  /** What every generated move satisfies: the car exists and moves along its
      own axis, the label records its old position, the pre-filter does not
      flag the direction, the distance is the full positive slide distance,
      and the new state is that slide. */
  ghost predicate LegalStep(s: GameState, t: Transition)
  {
    var m := t.move;
    && m.car < |s.cars|
    && OnAxis(s.cars[m.car].orientation, m.dir)
    && m.row == s.cars[m.car].row && m.col == s.cars[m.car].col
    && DirChar(m.dir) !in Blocked(s, m.car)
    && 0 < m.distance == MaxSlide(s, m.car, m.dir)
    && t.next == Slide(s, m.car, m.dir, m.distance)
  }

  /** The move of car `i` in direction `dir`, if the pre-filter lets it
      through and the slide distance is positive. */
  ghost function TryDir(s: GameState, i: nat, dir: Dir, blocked: set<char>): seq<Transition>
    requires i < |s.cars|
  {
    if DirChar(dir) in blocked then []
    else
      var moves := MaxSlide(s, i, dir);
      if moves > 0 then [Transition(Move(i, s.cars[i].row, s.cars[i].col, dir, moves), Slide(s, i, dir, moves))]
      else []
  }

  /** The moves of car `i`: up then down for a vertical car, left then right
      for a horizontal one. */
  ghost function CarTransitions(s: GameState, i: nat): (ts: seq<Transition>)
    requires i < |s.cars|
    ensures |ts| <= 2
  {
    var car := s.cars[i];
    if car.orientation == 'v' then
      TryDir(s, i, Up, Blocked(s, i)) + TryDir(s, i, Down, Blocked(s, i))
    else if car.orientation == 'h' then
      TryDir(s, i, Left, Blocked(s, i)) + TryDir(s, i, Right, Blocked(s, i))
    else []
  }

  /** The moves of each car, by index; none past the last car. */
  ghost function CarMoves(s: GameState): nat -> seq<Transition>
  {
    (i: nat) => if i < |s.cars| then CarTransitions(s, i) else []
  }

  /** The moves of the first `n` cars in car order, given each car's moves. */
  ghost function Concat(per: nat -> seq<Transition>, n: nat): seq<Transition>
  {
    if n == 0 then [] else Concat(per, n - 1) + per(n - 1)
  }

  /** A move is among the first `n` cars' moves exactly when one of those
      cars produces it. */
  lemma {:induction false} ConcatMembers(per: nat -> seq<Transition>, n: nat)
    ensures forall t :: t in Concat(per, n) <==> exists i: nat :: i < n && t in per(i)
  {
    if n > 0 {
      ConcatMembers(per, n - 1);
    }
  }

  /** At most two moves per car give at most `2 * n` moves for `n` cars. */
  lemma {:induction false} ConcatLength(per: nat -> seq<Transition>, n: nat)
    requires forall i: nat :: i < n ==> |per(i)| <= 2
    ensures |Concat(per, n)| <= 2 * n
  {
    if n > 0 {
      ConcatLength(per, n - 1);
    }
  }

  /** All moves of the board, car by car. */
  ghost function Transitions(s: GameState): seq<Transition>
  {
    Concat(CarMoves(s), |s.cars|)
  }

  /** Every move car `i`'s scan produces is a legal step of car `i`. */
  lemma CarTransitionsLegal(s: GameState, i: nat)
    requires i < |s.cars|
    ensures forall t :: t in CarTransitions(s, i) ==> LegalStep(s, t) && t.move.car == i
  {
    var car := s.cars[i];
    assert car.orientation == 'v' || car.orientation == 'h' || CarTransitions(s, i) == [];
  }

  /** Every generated move is a legal step. */
  lemma TransitionsLegal(s: GameState)
    ensures forall t :: t in Transitions(s) ==> LegalStep(s, t)
  {
    ConcatMembers(CarMoves(s), |s.cars|);
    forall t | t in Transitions(s)
      ensures LegalStep(s, t)
    {
      var i: nat :| i < |s.cars| && t in CarMoves(s)(i);
      CarTransitionsLegal(s, i);
    }
  }

  /** A legal step moves exactly one car, by a positive distance along its
      axis, and keeps the shape of the board. */
  lemma LegalStepMovesOneCar(s: GameState, t: Transition)
    requires LegalStep(s, t)
    ensures SameShape(s, t.next)
    ensures forall j :: 0 <= j < |s.cars| && j != t.move.car ==> t.next.cars[j] == s.cars[j]
    ensures t.next.cars[t.move.car] != s.cars[t.move.car]
    ensures 1 <= t.move.car < |s.cars| ==> IsGoal(t.next) == IsGoal(s)
  {
    SlideMovesOnlyThatCar(s, t.move.car, t.move.dir, t.move.distance);
    if 1 <= t.move.car {
      SlideOtherKeepsGoal(s, t.move.car, t.move.dir, t.move.distance);
    }
  }

  /** Boundary safety: a legal step from a valid board gives a valid board.
      Every car stays inside the grid and no two cars share a cell. */
  lemma LegalStepKeepsValid(s: GameState, t: Transition)
    requires ValidBoard(s) && LegalStep(s, t)
    ensures ValidBoard(t.next)
  {
    SlideKeepsValid(s, t.move.car, t.move.dir);
  }

  /** A legal step of car `i` is among that car's generated moves. */
  lemma LegalIsCarTransition(s: GameState, t: Transition)
    requires LegalStep(s, t)
    ensures t in CarTransitions(s, t.move.car)
  {
    var m := t.move;
    var i := m.car;
    assert TryDir(s, i, m.dir, Blocked(s, i)) == [t];
  }

  /** The converse of `TransitionsLegal`: every legal step is generated, so
      the generated moves are exactly the legal steps. */
  lemma LegalIsGenerated(s: GameState, t: Transition)
    requires LegalStep(s, t)
    ensures t in Transitions(s)
  {
    LegalIsCarTransition(s, t);
    ConcatMembers(CarMoves(s), |s.cars|);
    assert t in CarMoves(s)(t.move.car);
  }

  // ---------------------------------------------------------------------
  // Successor nodes
  // ---------------------------------------------------------------------

  /** The child node a transition leads to: one level deeper than its
      parent, linked to it, and labelled with the move. */
  function Child(n: Node, t: Transition): (c: Node)
    ensures c.depth == n.depth + 1 && c.cameFrom == Some(n) && c.move == Some(t.move)
  {
    Node(t.next, n.depth + 1, Some(n), Some(t.move))
  }

  /** A child's path is its parent's path extended by the move. */
  lemma ChildExtendsPath(n: Node, t: Transition)
    ensures Links(Child(n, t)) == Links(n) + 1
    ensures PathStates(Child(n, t)) == PathStates(n) + [t.next]
    ensures PathMoves(Child(n, t)) == PathMoves(n) + [Some(t.move)]
  {
  }

  /** The child nodes of `n` for the transitions `ts`, in order. */
  ghost function ChildrenOf(n: Node, ts: seq<Transition>): (children: seq<Node>)
    ensures |children| == |ts|
    ensures forall k :: 0 <= k < |ts| ==> children[k] == Child(n, ts[k])
  {
    seq(|ts|, k requires 0 <= k < |ts| => Child(n, ts[k]))
  }

  lemma {:induction false} ChildrenOfAppend(n: Node, ts: seq<Transition>, us: seq<Transition>)
    ensures ChildrenOf(n, ts + us) == ChildrenOf(n, ts) + ChildrenOf(n, us)
  {
    assert forall k :: 0 <= k < |ts + us| ==> ChildrenOf(n, ts + us)[k] == (ChildrenOf(n, ts) + ChildrenOf(n, us))[k];
  }

  /** The successors of a node: one child per generated move. */
  ghost function Successors(n: Node): seq<Node>
  {
    ChildrenOf(n, Transitions(n.state))
  }

  /** Every successor is one level deeper, links back to its parent, carries
      a move label, and is reached by a legal step; there are at most two
      per car. */
  lemma SuccessorFacts(n: Node)
    ensures |Successors(n)| <= 2 * |n.state.cars|
    ensures forall c :: c in Successors(n) ==>
      && c.depth == n.depth + 1
      && c.cameFrom == Some(n)
      && c.move.Some?
      && LegalStep(n.state, Transition(c.move.value, c.state))
  {
    var ts := Transitions(n.state);
    ConcatLength(CarMoves(n.state), |n.state.cars|);
    TransitionsLegal(n.state);
    forall c | c in Successors(n)
      ensures c.depth == n.depth + 1 && c.cameFrom == Some(n) && c.move.Some?
      ensures LegalStep(n.state, Transition(c.move.value, c.state))
    {
      var k :| 0 <= k < |ts| && Successors(n)[k] == c;
      assert c == Child(n, ts[k]);
      assert ts[k] in ts;
      assert Transition(c.move.value, c.state) == ts[k];
    }
  }

  /** The converse of `SuccessorFacts`: the child for every legal step is a
      successor. */
  lemma LegalStepIsSuccessor(n: Node, t: Transition)
    requires LegalStep(n.state, t)
    ensures Child(n, t) in Successors(n)
  {
    var ts := Transitions(n.state);
    LegalIsGenerated(n.state, t);
    var k :| 0 <= k < |ts| && ts[k] == t;
    assert Successors(n)[k] == Child(n, t);
  }

  /** The body of the successor loop for one car: the pre-filter, then for
      each direction of the car's axis that it lets through, the slide
      distance and, when that is positive, the child node. */
  method CarSuccessors(n: Node, carIdx: nat) returns (added: seq<Node>)
    requires carIdx < |n.state.cars|
    ensures added == ChildrenOf(n, CarTransitions(n.state, carIdx))
  {
    added := [];
    var s := n.state;
    var car := s.cars[carIdx];
    if car.orientation == 'v' {
      var blockedDirs := BlockedDirections(s, carIdx);
      ghost var first := TryDir(s, carIdx, Up, blockedDirs);
      ghost var second := TryDir(s, carIdx, Down, blockedDirs);
      if 'u' !in blockedDirs {
        var moves := MaxUp(s, carIdx);
        if moves > 0 {
          var newStateUp := GoUp(s, carIdx, moves);
          var move := Move(carIdx, car.row, car.col, Up, moves);
          added := added + [Node(newStateUp, n.depth + 1, Some(n), Some(move))];
        }
      }
      assert added == ChildrenOf(n, first);
      if 'd' !in blockedDirs {
        var moves := MaxDown(s, carIdx);
        if moves > 0 {
          var newStateDown := GoDown(s, carIdx, moves);
          var move := Move(carIdx, car.row, car.col, Down, moves);
          added := added + [Node(newStateDown, n.depth + 1, Some(n), Some(move))];
        }
      }
      ChildrenOfAppend(n, first, second);
    } else if car.orientation == 'h' {
      var blockedDirs := BlockedDirections(s, carIdx);
      ghost var first := TryDir(s, carIdx, Left, blockedDirs);
      ghost var second := TryDir(s, carIdx, Right, blockedDirs);
      if 'l' !in blockedDirs {
        var moves := MaxLeft(s, carIdx);
        if moves > 0 {
          var newStateLeft := GoLeft(s, carIdx, moves);
          var move := Move(carIdx, car.row, car.col, Left, moves);
          added := added + [Node(newStateLeft, n.depth + 1, Some(n), Some(move))];
        }
      }
      assert added == ChildrenOf(n, first);
      if 'r' !in blockedDirs {
        var moves := MaxRight(s, carIdx);
        if moves > 0 {
          var newStateRight := GoRight(s, carIdx, moves);
          var move := Move(carIdx, car.row, car.col, Right, moves);
          added := added + [Node(newStateRight, n.depth + 1, Some(n), Some(move))];
        }
      }
      ChildrenOfAppend(n, first, second);
    }
  }

  /** The children of the first `k` cars' moves, car by car. */
  ghost function ChildConcat(n: Node, per: nat -> seq<Transition>, k: nat): seq<Node>
  {
    if k == 0 then [] else ChildConcat(n, per, k - 1) + ChildrenOf(n, per(k - 1))
  }

  /** Collecting children car by car gives the children of all the cars'
      moves. */
  lemma {:induction false} ChildConcatIsChildren(n: Node, per: nat -> seq<Transition>, k: nat)
    ensures ChildConcat(n, per, k) == ChildrenOf(n, Concat(per, k))
  {
    if k > 0 {
      ChildConcatIsChildren(n, per, k - 1);
      ChildrenOfAppend(n, Concat(per, k - 1), per(k - 1));
    }
  }

  /** One car's turn of the successor loop adds the children of that car's
      moves. */
  lemma ChildConcatStep(n: Node, k: nat)
    requires k < |n.state.cars|
    ensures ChildConcat(n, CarMoves(n.state), k + 1)
         == ChildConcat(n, CarMoves(n.state), k) + ChildrenOf(n, CarTransitions(n.state, k))
  {
  }

  /** Successor generation: the children of every car, in car order. */
  method GenerateSuccessor(n: Node) returns (successors: seq<Node>)
    ensures successors == Successors(n)
  {
    successors := [];
    for carIdx := 0 to |n.state.cars|
      invariant successors == ChildConcat(n, CarMoves(n.state), carIdx)
    {
      var added := CarSuccessors(n, carIdx);
      ChildConcatStep(n, carIdx);
      successors := successors + added;
    }
    ChildConcatIsChildren(n, CarMoves(n.state), |n.state.cars|);
  }

  // ---------------------------------------------------------------------
  // Path reconstruction
  // ---------------------------------------------------------------------

  /** The number of parent links above a node. */
  function Links(n: Node): nat
  {
    match n.cameFrom
    case None => 0
    case Some(p) => Links(p) + 1
  }

  /** The node at the top of the parent chain. */
  function Root(n: Node): (r: Node)
    ensures r.cameFrom.None?
  {
    match n.cameFrom
    case None => n
    case Some(p) => Root(p)
  }

  /** The states from the root down to `n`: one more than the links, the
      root's state first and `n`'s state last. */
  function PathStates(n: Node): (path: seq<GameState>)
    ensures |path| == Links(n) + 1
    ensures path[0] == Root(n).state && path[|path| - 1] == n.state
  {
    match n.cameFrom
    case None => [n.state]
    case Some(p) => PathStates(p) + [n.state]
  }

  /** The move labels from the root down to `n`, aligned with `PathStates`:
      the root's label first and `n`'s last. */
  function PathMoves(n: Node): (moves: seq<Option<Move>>)
    ensures |moves| == Links(n) + 1
    ensures moves[0] == Root(n).move && moves[|moves| - 1] == n.move
  {
    match n.cameFrom
    case None => [n.move]
    case Some(p) => PathMoves(p) + [n.move]
  }

  function StatesFrom(current: Option<Node>): seq<GameState>
  {
    match current
    case None => []
    case Some(c) => PathStates(c)
  }

  function MovesFrom(current: Option<Node>): seq<Option<Move>>
  {
    match current
    case None => []
    case Some(c) => PathMoves(c)
  }

  /** The sequence in reverse order. */
  function Reverse<T>(s: seq<T>): (r: seq<T>)
    ensures |r| == |s|
    ensures forall k :: 0 <= k < |s| ==> r[k] == s[|s| - 1 - k]
  {
    if s == [] then [] else [s[|s| - 1]] + Reverse(s[..|s| - 1])
  }

  /** Moving the last element of a prefix onto the end of a reversed
      suffix keeps the whole. */
  lemma ShiftIntoReversed<T>(prefix: seq<T>, x: T, collected: seq<T>, whole: seq<T>)
    requires prefix + [x] + Reverse(collected) == whole
    ensures prefix + Reverse(collected + [x]) == whole
  {
    assert (collected + [x])[..|collected|] == collected;
    assert Reverse(collected + [x]) == [x] + Reverse(collected);
  }

  /** One step of the walk up the parent links keeps the collected path,
      reversed, a suffix of the full path. */
  lemma WalkStep(n: Node, c: Node, path: seq<GameState>, moves: seq<Option<Move>>)
    requires StatesFrom(Some(c)) + Reverse(path) == PathStates(n)
    requires MovesFrom(Some(c)) + Reverse(moves) == PathMoves(n)
    ensures StatesFrom(c.cameFrom) + Reverse(path + [c.state]) == PathStates(n)
    ensures MovesFrom(c.cameFrom) + Reverse(moves + [c.move]) == PathMoves(n)
  {
    assert StatesFrom(c.cameFrom) + [c.state] == PathStates(c);
    assert MovesFrom(c.cameFrom) + [c.move] == PathMoves(c);
    ShiftIntoReversed(StatesFrom(c.cameFrom), c.state, path, PathStates(n));
    ShiftIntoReversed(MovesFrom(c.cameFrom), c.move, moves, PathMoves(n));
  }

  /** Walks the parent links up from `n`, collecting states and move labels,
      and reverses both so that they run from the root to `n`. */
  method ReconstructPath(n: Node) returns (path: seq<GameState>, moves: seq<Option<Move>>)
    ensures path == PathStates(n) && moves == PathMoves(n)
  {
    path := [];
    moves := [];
    var current := Some(n);
    while current.Some?
      invariant StatesFrom(current) + Reverse(path) == PathStates(n)
      invariant MovesFrom(current) + Reverse(moves) == PathMoves(n)
      decreases current
    {
      var c := current.value;
      WalkStep(n, c, path, moves);
      path := path + [c.state];
      moves := moves + [c.move];
      current := c.cameFrom;
    }
    assert Reverse(path) == PathStates(n);
    path := Reverse(path);
    moves := Reverse(moves);
  }

  // ---------------------------------------------------------------------
  // Search trees
  // ---------------------------------------------------------------------

  /** A node of the search tree grown from `root`: the root node itself
      (depth 0, no parent, no label), or a successor of such a node. */
  ghost predicate InTree(n: Node, root: GameState)
    decreases n
  {
    match n.cameFrom
    case None => n == Node(root, 0, None, None)
    case Some(p) => InTree(p, root) && n in Successors(p)
  }

  /** Along a tree node's path, the depth counts the moves, the root label is
      absent, every later label is the legal step between consecutive states,
      and the board keeps the root's shape. */
  lemma {:induction false} InTreeFacts(n: Node, root: GameState)
    requires InTree(n, root)
    ensures SameShape(n.state, root)
    ensures n.depth == Links(n)
    ensures Root(n) == Node(root, 0, None, None)
    ensures PathStates(n)[0] == root && PathMoves(n)[0] == None
    ensures forall k :: 1 <= k < |PathStates(n)| ==>
      PathMoves(n)[k].Some? && LegalStep(PathStates(n)[k - 1], Transition(PathMoves(n)[k].value, PathStates(n)[k]))
  {
    match n.cameFrom
    case None =>
    case Some(p) =>
      InTreeFacts(p, root);
      SuccessorFacts(p);
      var t := Transition(n.move.value, n.state);
      LegalStepMovesOneCar(p.state, t);
      var k := |PathStates(p)|;
      assert PathStates(n) == PathStates(p) + [n.state];
      assert PathMoves(n) == PathMoves(p) + [n.move];
      assert PathStates(n)[k - 1] == p.state;
  }

}
