/** The Rush Hour board: an ordered sequence of cars (index 0 is the target
    car) and the grid extents. Everything here is value-level geometry; the
    scans that the source writes as loops are methods proved equal to the
    functions that specify them. */
module GameStates {

  import opened Options
  import opened Cars

  datatype GameState = GameState(cars: seq<Car>, numRows: int, numCols: int)

  /** The four slide directions, with the one-letter names the source uses. */
  datatype Dir = Up | Down | Left | Right

  function DirChar(dir: Dir): char
  {
    match dir
    case Up => 'u'
    case Down => 'd'
    case Left => 'l'
    case Right => 'r'
  }

  function Opposite(dir: Dir): Dir
  {
    match dir
    case Up => Down
    case Down => Up
    case Left => Right
    case Right => Left
  }

  /** The directions a car may slide in: up and down for a vertical car, left
      and right for a horizontal one, none for any other orientation. */
  predicate OnAxis(orientation: char, dir: Dir)
  {
    if orientation == 'v' then dir == Up || dir == Down
    else if orientation == 'h' then dir == Left || dir == Right
    else false
  }

  // ---------------------------------------------------------------------
  // Interval and state equality
  // ---------------------------------------------------------------------

  predicate Within(x: int, start: int, length: int)
  {
    start <= x < start + length
  }

  /** The integers from `start` up to, not including, `start + length`. */
  function Interval(start: int, length: int): (r: set<int>)
    ensures forall x :: x in r <==> start <= x < start + length
  {
    // The bounds let Dafny see the set is finite; `Within` repeats them as a
    // term the membership quantifier can trigger on.
    set x: int | start <= x < start + length && Within(x, start, length)
  }

  /** An interval holds exactly `length` integers, or none for a
      non-positive length. */
  lemma {:induction false} IntervalSize(start: int, length: int)
    ensures |Interval(start, length)| == if length > 0 then length else 0
    decreases if length > 0 then length else 0
  {
    if length <= 0 {
      assert Interval(start, length) == {} by {
        if Interval(start, length) != {} {
          HasElement(Interval(start, length));
          assert false;
        }
      }
    } else {
      IntervalSize(start, length - 1);
      assert Interval(start, length) == Interval(start, length - 1) + {start + length - 1};
    }
  }

  /** The part of a car that state equality looks at: its length is left out. */
  datatype CarKey = CarKey(row: int, col: int, orientation: char)

  function KeyOf(c: Car): CarKey
  {
    CarKey(c.row, c.col, c.orientation)
  }

  /** The identity of a state for deduplication: the keys of its cars in order. */
  function Key(s: GameState): (k: seq<CarKey>)
    ensures |k| == |s.cars|
    ensures forall j :: 0 <= j < |k| ==> k[j] == KeyOf(s.cars[j])
  {
    seq(|s.cars|, j requires 0 <= j < |s.cars| => KeyOf(s.cars[j]))
  }

  /** State equality: the cars are compared pairwise, position by position, on
      row, column and orientation only; as with a pairwise zip, cars beyond the
      shorter of the two sequences and the grid extents are not compared. */
  predicate StateEq(a: GameState, b: GameState): (eq: bool)
    ensures a.cars == b.cars ==> eq
    ensures |a.cars| == 0 || |b.cars| == 0 ==> eq
    ensures |a.cars| == |b.cars| ==> (eq <==> Key(a) == Key(b))
  {
    assert |a.cars| == |b.cars| && Key(a) == Key(b) ==>
      forall j :: 0 <= j < |a.cars| ==> KeyOf(a.cars[j]) == Key(a)[j] == Key(b)[j] == KeyOf(b.cars[j]);
    assert |a.cars| == |b.cars| && (forall j :: 0 <= j < |a.cars| ==> KeyOf(a.cars[j]) == KeyOf(b.cars[j])) ==>
      Key(a) == Key(b);
    forall j :: 0 <= j < |a.cars| && j < |b.cars| ==> KeyOf(a.cars[j]) == KeyOf(b.cars[j])
  }

  /** State equality ignores car lengths: cars in the same places with the same
      orientations compare equal whatever their lengths. */
  lemma StateEqIgnoresLength(s: GameState, lengths: seq<int>)
    requires |lengths| == |s.cars|
    ensures StateEq(s, GameState(seq(|s.cars|, j requires 0 <= j < |s.cars| => s.cars[j].(length := lengths[j])), s.numRows, s.numCols))
  {
  }

  /** Because only the common prefix is compared, state equality is not
      transitive across sequences of different lengths. */
  lemma StateEqNotTransitive()
    ensures var a := GameState([Car(0, 0, 'h', 2)], 6, 6);
            var b := GameState([], 6, 6);
            var c := GameState([Car(1, 1, 'h', 2)], 6, 6);
            StateEq(a, b) && StateEq(b, c) && !StateEq(a, c)
  {
    var a := GameState([Car(0, 0, 'h', 2)], 6, 6);
    var c := GameState([Car(1, 1, 'h', 2)], 6, 6);
    assert KeyOf(a.cars[0]) != KeyOf(c.cars[0]);
  }

  /** Two states with the same shape (car count, orientations, lengths, grid)
      and the same key are the same state: within one puzzle, keying by `Key`
      loses nothing. */
  predicate SameShape(s: GameState, t: GameState)
  {
    && |s.cars| == |t.cars|
    && s.numRows == t.numRows && s.numCols == t.numCols
    && forall j :: 0 <= j < |s.cars| ==>
         s.cars[j].orientation == t.cars[j].orientation && s.cars[j].length == t.cars[j].length
  }

  /** Two boards of the same shape as a third have the same shape. */
  lemma SameShapeJoin(s: GameState, t: GameState, root: GameState)
    requires SameShape(s, root) && SameShape(t, root)
    ensures SameShape(s, t)
  {
  }

  lemma KeyDeterminesState(s: GameState, t: GameState)
    requires SameShape(s, t) && Key(s) == Key(t)
    ensures s == t
  {
    assert forall j :: 0 <= j < |s.cars| ==> KeyOf(s.cars[j]) == Key(s)[j] == Key(t)[j] == KeyOf(t.cars[j]);
    assert s.cars == t.cars;
  }

  // ---------------------------------------------------------------------
  // Goal test and heuristic
  // ---------------------------------------------------------------------

  /** The goal test. A horizontal target is out when its far edge reaches
      column `numCols - 1`; a vertical target when its column is at most 0;
      a target of any other orientation never is. */
  predicate IsGoal(s: GameState): (out: bool)
    requires |s.cars| >= 1
    ensures out ==> s.cars[0].orientation == 'h' || s.cars[0].orientation == 'v'
    ensures s.cars[0].orientation == 'h' ==> (out <==> Front(s.cars[0]) >= s.numCols - 1)
    ensures s.cars[0].orientation == 'v' ==> (out <==> s.cars[0].col <= 0)
  {
    var red := s.cars[0];
    if red.orientation == 'h' then red.col + red.length >= s.numCols - 1
    else if red.orientation == 'v' then red.col <= 0
    else false
  }

  /** A target of any other orientation is never out, and the goal depends
      on the target car and the column count only. */
  lemma GoalRule(s: GameState)
    requires |s.cars| >= 1
    ensures s.cars[0].orientation != 'h' && s.cars[0].orientation != 'v' ==> !IsGoal(s)
    ensures forall t: GameState :: |t.cars| >= 1 && t.cars[0] == s.cars[0] && t.numCols == s.numCols ==> IsGoal(t) == IsGoal(s)
  {
  }

  /** Whether car `c` counts as blocking the target `red`. */
  predicate Blocks(red: Car, c: Car)
  {
    if red.orientation == 'h' then
      && c.col >= red.col
      && ((c.orientation == 'h' && c.row == red.row) ||
          (c.orientation == 'v' && red.row in Interval(c.row, c.length)))
    else if red.orientation == 'v' then
      && c.row <= red.row + red.length
      && ((c.orientation == 'v' && c.col == red.col) ||
          (c.orientation == 'h' && red.col in Interval(c.col, c.length)))
    else false
  }

  /** The number of blocking cars among the first `n` cars, the target itself
      (index 0) excluded. */
  function BlockingBefore(s: GameState, n: nat): (count: nat)
    requires 1 <= |s.cars| && n <= |s.cars|
    ensures n == 0 ==> count == 0
    ensures n > 0 ==> count < n
  {
    if n <= 1 then 0
    else BlockingBefore(s, n - 1) + (if Blocks(s.cars[0], s.cars[n - 1]) then 1 else 0)
  }

  /** A target that is neither horizontal nor vertical has no blockers. */
  lemma {:induction false} NoBlockersOffAxis(s: GameState, n: nat)
    requires 1 <= |s.cars| && n <= |s.cars|
    requires s.cars[0].orientation != 'h' && s.cars[0].orientation != 'v'
    ensures BlockingBefore(s, n) == 0
  {
    if n > 1 {
      NoBlockersOffAxis(s, n - 1);
    }
  }

  /** The blocking-car heuristic, as a value: 0 at the goal, otherwise one plus
      the number of other cars in the target's way. */
  function HeuristicValue(s: GameState): (h: nat)
    requires |s.cars| >= 1
    ensures h == 0 <==> IsGoal(s)
    ensures !IsGoal(s) ==> 1 <= h <= |s.cars|
  {
    if IsGoal(s) then 0 else 1 + BlockingBefore(s, |s.cars|)
  }

  /** The heuristic loop: counts the cars in the target's way. */
  method Heuristic(s: GameState) returns (blocking: int)
    requires |s.cars| >= 1
    ensures blocking == HeuristicValue(s)
  {
    if IsGoal(s) {
      return 0;
    }
    blocking := 1;
    var red := s.cars[0];
    if red.orientation == 'h' {
      for j := 0 to |s.cars|
        invariant blocking == 1 + BlockingBefore(s, j)
      {
        var car := s.cars[j];
        if j == 0 || car.col < red.col {
          continue;
        }
        if car.orientation == 'h' && car.row == red.row {
          blocking := blocking + 1;
          continue;
        } else if car.orientation == 'v' && red.row in Interval(car.row, car.length) {
          blocking := blocking + 1;
        }
      }
    } else if red.orientation == 'v' {
      for j := 0 to |s.cars|
        invariant blocking == 1 + BlockingBefore(s, j)
      {
        var car := s.cars[j];
        if j == 0 || car.row > red.row + red.length {
          continue;
        }
        if car.orientation == 'v' && car.col == red.col {
          blocking := blocking + 1;
        } else if car.orientation == 'h' && red.col in Interval(car.col, car.length) {
          blocking := blocking + 1;
        }
      }
    } else {
      NoBlockersOffAxis(s, |s.cars|);
    }
  }

  // ---------------------------------------------------------------------
  // Slide distances
  // ---------------------------------------------------------------------

  /** The free gap between the moving car `c` and another car `o` in
      direction `dir`, when `o` is one the scan for that direction counts. */
  function Gap(c: Car, o: Car, dir: Dir): Option<int>
  {
    match dir
    case Up =>
      if o.orientation == 'h' && c.col in Interval(o.col, o.length) then
        (if o.row < c.row then Some(c.row - (o.row + 1)) else None)
      else if o.orientation == 'v' && o.col == c.col then
        (if o.row + o.length < c.row then Some(c.row - (o.row + o.length)) else None)
      else None
    case Down =>
      if o.orientation == 'h' && c.col in Interval(o.col, o.length) then
        (if o.row >= c.row + c.length then Some(o.row - (c.row + c.length)) else None)
      else if o.orientation == 'v' && o.col == c.col then
        (if o.row > c.row then Some(o.row - (c.row + c.length)) else None)
      else None
    case Right =>
      if o.orientation == 'h' && o.row == c.row then
        (if c.col + c.length <= o.col then Some(o.col - (c.col + c.length)) else None)
      else if o.orientation == 'v' && c.row in Interval(o.row, o.length) then
        (if o.col >= c.col + c.length then Some(o.col - (c.col + c.length)) else None)
      else None
    case Left =>
      if o.orientation == 'h' && o.row == c.row then
        (if o.col + o.length <= c.col then Some(c.col - (o.col + o.length)) else None)
      else if o.orientation == 'v' && c.row in Interval(o.row, o.length) then
        (if o.col + 1 <= c.col then Some(c.col - (o.col + 1)) else None)
      else None
  }

  /** The set of free gaps that the first `n` cars other than car `i` leave
      in direction `dir`. */
  function GapsBefore(s: GameState, i: nat, dir: Dir, n: nat): set<int>
    requires i < |s.cars| && n <= |s.cars|
  {
    if n == 0 then {}
    else
      var o := Gap(s.cars[i], s.cars[n - 1], dir);
      GapsBefore(s, i, dir, n - 1) + (if n - 1 != i && o.Some? then {o.value} else {})
  }

  /** Every gap in the set comes from a car other than `i` among the first `n`. */
  lemma {:induction false} GapsBeforeSound(s: GameState, i: nat, dir: Dir, n: nat, g: int)
    requires i < |s.cars| && n <= |s.cars|
    requires g in GapsBefore(s, i, dir, n)
    ensures exists j :: 0 <= j < n && j != i && Gap(s.cars[i], s.cars[j], dir) == Some(g)
  {
    var o := Gap(s.cars[i], s.cars[n - 1], dir);
    if g in GapsBefore(s, i, dir, n - 1) {
      GapsBeforeSound(s, i, dir, n - 1, g);
    } else {
      assert n - 1 != i && o == Some(g);
    }
  }

  /** Every car other than `i` among the first `n` that the scan counts
      contributes its gap to the set. */
  lemma {:induction false} GapsBeforeComplete(s: GameState, i: nat, dir: Dir, n: nat, j: nat)
    requires i < |s.cars| && j < n <= |s.cars| && j != i
    requires Gap(s.cars[i], s.cars[j], dir).Some?
    ensures Gap(s.cars[i], s.cars[j], dir).value in GapsBefore(s, i, dir, n)
  {
    if j < n - 1 {
      GapsBeforeComplete(s, i, dir, n - 1, j);
    }
  }

  function Gaps(s: GameState, i: nat, dir: Dir): set<int>
    requires i < |s.cars|
  {
    GapsBefore(s, i, dir, |s.cars|)
  }

  /** True when the car already touches the grid edge in direction `dir`. */
  predicate AtEdge(s: GameState, c: Car, dir: Dir)
  {
    match dir
    case Up => c.row == 0
    case Down => c.row + c.length == s.numRows
    case Right => c.col + c.length == s.numCols
    case Left => c.col == 0
  }

  /** The distance from the car to the grid edge in direction `dir`. */
  function FreeRun(s: GameState, c: Car, dir: Dir): int
  {
    match dir
    case Up => c.row
    case Down => s.numRows - (c.row + c.length)
    case Right => s.numCols - (c.col + c.length)
    case Left => c.col
  }

  /** A non-empty set has an element. */
  lemma HasElement(xs: set<int>)
    requires xs != {}
    ensures exists y :: y in xs
  {
    if forall y :: y !in xs {
      assert false;
    }
  }

  lemma {:induction false} LeastExists(xs: set<int>)
    requires xs != {}
    ensures exists m :: m in xs && forall x :: x in xs ==> m <= x
    decreases |xs|
  {
    HasElement(xs);
    var y :| y in xs;
    var others := xs - {y};
    if others == {} {
      assert xs == others + {y};
      assert forall x :: x in xs ==> y <= x;
    } else {
      LeastExists(others);
      var m :| m in others && forall x :: x in others ==> m <= x;
      var least := if y < m then y else m;
      forall x | x in xs
        ensures least <= x
      {
        if x != y {
          assert x in others;
        }
      }
      assert least in xs;
    }
  }

  /** The least element of a non-empty finite set. */
  ghost function Least(xs: set<int>): (m: int)
    requires xs != {}
    ensures m in xs && forall x :: x in xs ==> m <= x
  {
    LeastExists(xs);
    var m :| m in xs && forall x :: x in xs ==> m <= x;
    m
  }

  /** The slide distance the scans compute: 0 at the edge, otherwise the least
      free gap to a counted car, or the distance to the edge when none is
      counted. */
  ghost function MaxSlide(s: GameState, i: nat, dir: Dir): (d: int)
    requires i < |s.cars|
    ensures AtEdge(s, s.cars[i], dir) ==> d == 0
    ensures !AtEdge(s, s.cars[i], dir) && Gaps(s, i, dir) != {} ==> d in Gaps(s, i, dir)
  {
    var c := s.cars[i];
    if AtEdge(s, c, dir) then 0
    else if Gaps(s, i, dir) == {} then FreeRun(s, c, dir)
    else Least(Gaps(s, i, dir))
  }

  /** The minimum of a non-empty set of integers. */
  method MinOf(xs: set<int>) returns (m: int)
    requires xs != {}
    ensures m in xs && forall x :: x in xs ==> m <= x
  {
    HasElement(xs);
    m :| m in xs;
    var rest := xs - {m};
    while rest != {}
      invariant rest <= xs && m in xs
      invariant forall x :: x in xs && x !in rest ==> m <= x
      decreases rest
    {
      HasElement(rest);
      var y :| y in rest;
      if y < m {
        m := y;
      }
      rest := rest - {y};
    }
  }

  /** Completes a scan: 0 at the edge, the least gap, or the run to the edge. */
  lemma ScanResult(s: GameState, i: nat, dir: Dir, freeSpaces: set<int>, moves: int)
    requires i < |s.cars| && !AtEdge(s, s.cars[i], dir)
    requires freeSpaces == Gaps(s, i, dir)
    requires freeSpaces != {} ==> moves in freeSpaces && forall x :: x in freeSpaces ==> moves <= x
    requires freeSpaces == {} ==> moves == FreeRun(s, s.cars[i], dir)
    ensures moves == MaxSlide(s, i, dir)
  {
    if freeSpaces != {} {
      var m := Least(freeSpaces);
      assert moves <= m && m <= moves;
    }
  }

  method MaxUp(s: GameState, i: nat) returns (moves: int)
    requires i < |s.cars|
    ensures moves == MaxSlide(s, i, Up)
  {
    var car := s.cars[i];
    if car.row == 0 {
      return 0;
    }
    var freeSpaces: set<int> := {};
    for j := 0 to |s.cars|
      invariant freeSpaces == GapsBefore(s, i, Up, j)
    {
      var other := s.cars[j];
      if j == i {
        continue;
      }
      if other.orientation == 'h' && car.col in Interval(other.col, other.length) {
        if other.row < car.row {
          freeSpaces := freeSpaces + {car.row - (other.row + 1)};
        }
      } else if other.orientation == 'v' && other.col == car.col {
        if other.row + other.length < car.row {
          freeSpaces := freeSpaces + {car.row - (other.row + other.length)};
        }
      }
    }
    if freeSpaces != {} {
      moves := MinOf(freeSpaces);
    } else {
      moves := car.row;
    }
    ScanResult(s, i, Up, freeSpaces, moves);
  }

  method MaxDown(s: GameState, i: nat) returns (moves: int)
    requires i < |s.cars|
    ensures moves == MaxSlide(s, i, Down)
  {
    var car := s.cars[i];
    if car.row + car.length == s.numRows {
      return 0;
    }
    var freeSpaces: set<int> := {};
    for j := 0 to |s.cars|
      invariant freeSpaces == GapsBefore(s, i, Down, j)
    {
      var other := s.cars[j];
      if j == i {
        continue;
      }
      if other.orientation == 'h' && car.col in Interval(other.col, other.length) {
        if other.row >= car.row + car.length {
          freeSpaces := freeSpaces + {other.row - (car.row + car.length)};
        }
      } else if other.orientation == 'v' && other.col == car.col {
        if other.row > car.row {
          freeSpaces := freeSpaces + {other.row - (car.row + car.length)};
        }
      }
    }
    if freeSpaces != {} {
      moves := MinOf(freeSpaces);
    } else {
      moves := s.numRows - (car.row + car.length);
    }
    ScanResult(s, i, Down, freeSpaces, moves);
  }

  method MaxRight(s: GameState, i: nat) returns (moves: int)
    requires i < |s.cars|
    ensures moves == MaxSlide(s, i, Right)
  {
    var car := s.cars[i];
    if car.col + car.length == s.numCols {
      return 0;
    }
    var freeSpaces: set<int> := {};
    var carFront := car.col + car.length;
    for j := 0 to |s.cars|
      invariant freeSpaces == GapsBefore(s, i, Right, j)
    {
      var other := s.cars[j];
      if j == i {
        continue;
      }
      if other.orientation == 'h' && other.row == car.row {
        if carFront <= other.col {
          freeSpaces := freeSpaces + {other.col - carFront};
        }
      } else if other.orientation == 'v' && car.row in Interval(other.row, other.length) {
        if other.col >= carFront {
          freeSpaces := freeSpaces + {other.col - carFront};
        }
      }
    }
    if freeSpaces != {} {
      moves := MinOf(freeSpaces);
    } else {
      moves := s.numCols - carFront;
    }
    ScanResult(s, i, Right, freeSpaces, moves);
  }

  method MaxLeft(s: GameState, i: nat) returns (moves: int)
    requires i < |s.cars|
    ensures moves == MaxSlide(s, i, Left)
  {
    var car := s.cars[i];
    if car.col == 0 {
      return 0;
    }
    var freeSpaces: set<int> := {};
    for j := 0 to |s.cars|
      invariant freeSpaces == GapsBefore(s, i, Left, j)
    {
      var other := s.cars[j];
      if j == i {
        continue;
      }
      if other.orientation == 'h' && other.row == car.row {
        if other.col + other.length <= car.col {
          freeSpaces := freeSpaces + {car.col - (other.col + other.length)};
        }
      } else if other.orientation == 'v' && car.row in Interval(other.row, other.length) {
        if other.col + 1 <= car.col {
          freeSpaces := freeSpaces + {car.col - (other.col + 1)};
        }
      }
    }
    if freeSpaces != {} {
      moves := MinOf(freeSpaces);
    } else {
      moves := car.col;
    }
    ScanResult(s, i, Left, freeSpaces, moves);
  }

  /** What the four scans promise: 0 at the edge; the full run to the edge
      when no car is counted; otherwise a counted gap no larger than any other. */
  lemma MaxSlideCases(s: GameState, i: nat, dir: Dir)
    requires i < |s.cars|
    ensures AtEdge(s, s.cars[i], dir) ==> MaxSlide(s, i, dir) == 0
    ensures !AtEdge(s, s.cars[i], dir) && Gaps(s, i, dir) == {} ==> MaxSlide(s, i, dir) == FreeRun(s, s.cars[i], dir)
    ensures !AtEdge(s, s.cars[i], dir) && Gaps(s, i, dir) != {} ==>
      && MaxSlide(s, i, dir) in Gaps(s, i, dir)
      && forall g :: g in Gaps(s, i, dir) ==> MaxSlide(s, i, dir) <= g
  {
  }

  /** Every car has non-negative coordinates and a positive length. */
  predicate Placed(s: GameState)
  {
    forall j :: 0 <= j < |s.cars| ==> s.cars[j].row >= 0 && s.cars[j].col >= 0 && s.cars[j].length >= 1
  }

  /** Up and left: with non-negative coordinates and positive lengths the
      distance lies between 0 and the car's row (up) or column (left). */
  lemma MaxUpLeftBounds(s: GameState, i: nat)
    requires i < |s.cars| && Placed(s)
    ensures 0 <= MaxSlide(s, i, Up) <= s.cars[i].row
    ensures 0 <= MaxSlide(s, i, Left) <= s.cars[i].col
  {
    var c := s.cars[i];
    if !AtEdge(s, c, Up) && Gaps(s, i, Up) != {} {
      GapsBeforeSound(s, i, Up, |s.cars|, MaxSlide(s, i, Up));
      var j :| 0 <= j < |s.cars| && j != i && Gap(c, s.cars[j], Up) == Some(MaxSlide(s, i, Up));
    }
    if !AtEdge(s, c, Left) && Gaps(s, i, Left) != {} {
      GapsBeforeSound(s, i, Left, |s.cars|, MaxSlide(s, i, Left));
      var j :| 0 <= j < |s.cars| && j != i && Gap(c, s.cars[j], Left) == Some(MaxSlide(s, i, Left));
    }
  }

  /** Right: every counted gap is non-negative, so the distance is never
      negative while the car's far edge is inside the grid. */
  lemma MaxRightNonNegative(s: GameState, i: nat)
    requires i < |s.cars|
    ensures forall g :: g in Gaps(s, i, Right) ==> g >= 0
    ensures s.cars[i].col + s.cars[i].length <= s.numCols ==> MaxSlide(s, i, Right) >= 0
  {
    var c := s.cars[i];
    forall g | g in Gaps(s, i, Right)
      ensures g >= 0
    {
      GapsBeforeSound(s, i, Right, |s.cars|, g);
      var j :| 0 <= j < |s.cars| && j != i && Gap(c, s.cars[j], Right) == Some(g);
    }
  }

  // ---------------------------------------------------------------------
  // Transitions
  // ---------------------------------------------------------------------

  /** The state with car `i` moved `moves` rows up; the receiver is a value and
      is left as it is. */
  function GoUp(s: GameState, i: nat, moves: int): (t: GameState)
    requires i < |s.cars|
    ensures |t.cars| == |s.cars| && t.numRows == s.numRows && t.numCols == s.numCols
    ensures t.cars[i].row == s.cars[i].row - moves && t.cars[i].col == s.cars[i].col
    ensures t.cars[i].orientation == s.cars[i].orientation && t.cars[i].length == s.cars[i].length
  {
    GameState(s.cars[i := s.cars[i].(row := s.cars[i].row - moves)], s.numRows, s.numCols)
  }

  function GoDown(s: GameState, i: nat, moves: int): (t: GameState)
    requires i < |s.cars|
    ensures |t.cars| == |s.cars| && t.numRows == s.numRows && t.numCols == s.numCols
    ensures t.cars[i].row == s.cars[i].row + moves && t.cars[i].col == s.cars[i].col
    ensures t.cars[i].orientation == s.cars[i].orientation && t.cars[i].length == s.cars[i].length
  {
    GameState(s.cars[i := s.cars[i].(row := s.cars[i].row + moves)], s.numRows, s.numCols)
  }

  function GoRight(s: GameState, i: nat, moves: int): (t: GameState)
    requires i < |s.cars|
    ensures |t.cars| == |s.cars| && t.numRows == s.numRows && t.numCols == s.numCols
    ensures t.cars[i].col == s.cars[i].col + moves && t.cars[i].row == s.cars[i].row
    ensures t.cars[i].orientation == s.cars[i].orientation && t.cars[i].length == s.cars[i].length
  {
    GameState(s.cars[i := s.cars[i].(col := s.cars[i].col + moves)], s.numRows, s.numCols)
  }

  function GoLeft(s: GameState, i: nat, moves: int): (t: GameState)
    requires i < |s.cars|
    ensures |t.cars| == |s.cars| && t.numRows == s.numRows && t.numCols == s.numCols
    ensures t.cars[i].col == s.cars[i].col - moves && t.cars[i].row == s.cars[i].row
    ensures t.cars[i].orientation == s.cars[i].orientation && t.cars[i].length == s.cars[i].length
  {
    GameState(s.cars[i := s.cars[i].(col := s.cars[i].col - moves)], s.numRows, s.numCols)
  }

  /** The transition named by a direction. */
  function Slide(s: GameState, i: nat, dir: Dir, moves: int): (t: GameState)
    requires i < |s.cars|
    ensures |t.cars| == |s.cars| && t.numRows == s.numRows && t.numCols == s.numCols
    ensures t.cars[i] != s.cars[i] <==> moves != 0
  {
    match dir
    case Up => GoUp(s, i, moves)
    case Down => GoDown(s, i, moves)
    case Right => GoRight(s, i, moves)
    case Left => GoLeft(s, i, moves)
  }

  /** A slide moves car `i` and nothing else: every other car, the grid and
      the car's own orientation and length stay, and the car's row (up, down)
      or column (left, right) is shifted by the distance. */
  lemma SlideMovesOnlyThatCar(s: GameState, i: nat, dir: Dir, moves: int)
    requires i < |s.cars|
    ensures var t := Slide(s, i, dir, moves);
      && SameShape(s, t)
      && (forall j :: 0 <= j < |s.cars| && j != i ==> t.cars[j] == s.cars[j])
      && (dir == Up ==> t.cars[i].row == s.cars[i].row - moves && t.cars[i].col == s.cars[i].col)
      && (dir == Down ==> t.cars[i].row == s.cars[i].row + moves && t.cars[i].col == s.cars[i].col)
      && (dir == Left ==> t.cars[i].col == s.cars[i].col - moves && t.cars[i].row == s.cars[i].row)
      && (dir == Right ==> t.cars[i].col == s.cars[i].col + moves && t.cars[i].row == s.cars[i].row)
      && (moves != 0 ==> t.cars[i] != s.cars[i] && !StateEq(s, t))
  {
    var t := Slide(s, i, dir, moves);
    if moves != 0 {
      assert KeyOf(s.cars[i]) != KeyOf(t.cars[i]);
    }
  }

  /** Sliding back by the same distance restores the state exactly (and hence
      up to state equality). */
  lemma SlideRoundTrip(s: GameState, i: nat, dir: Dir, moves: int)
    requires i < |s.cars|
    ensures Slide(Slide(s, i, dir, moves), i, Opposite(dir), moves) == s
    ensures StateEq(Slide(Slide(s, i, dir, moves), i, Opposite(dir), moves), s)
  {
    var t := Slide(Slide(s, i, dir, moves), i, Opposite(dir), moves);
    assert t.cars == s.cars;
  }

  /** Moving any car but the target changes neither the goal test nor the car
      count. */
  lemma SlideOtherKeepsGoal(s: GameState, i: nat, dir: Dir, moves: int)
    requires 1 <= i < |s.cars|
    ensures IsGoal(Slide(s, i, dir, moves)) == IsGoal(s)
  {
    assert Slide(s, i, dir, moves).cars[0] == s.cars[0];
  }

  // ---------------------------------------------------------------------
  // Blocked directions (the adjacency pre-filter)
  // ---------------------------------------------------------------------

  /** Directions blocked by the grid edge, as the pre-filter tests it. */
  function BlockedAtEdge(s: GameState, c: Car): set<char>
  {
    if c.orientation == 'h' then
      (if c.col == 0 then {'l'} else {}) + (if Front(c) == s.numCols - 1 then {'r'} else {})
    else if c.orientation == 'v' then
      (if c.row == 0 then {'u'} else {}) + (if Front(c) == s.numRows - 1 then {'d'} else {})
    else {}
  }

  /** Directions of car `c` that car `o` blocks by being right next to it. */
  function BlockedBy(c: Car, o: Car): set<char>
  {
    if c.orientation == 'h' then
      if o.orientation == 'h' && c.row == o.row then
        (if c.col == Front(o) then {'l'} else if Front(c) == o.col then {'r'} else {})
      else if o.orientation == 'v' && c.row in Interval(o.row, o.length) then
        (if c.col == o.col + 1 then {'l'} else if Front(c) == o.col then {'r'} else {})
      else {}
    else if c.orientation == 'v' then
      (if o.orientation == 'h' && c.col in Interval(o.col, o.length) then
         (if c.row == o.row + 1 then {'u'} else if Front(c) == o.row then {'d'} else {})
       else {}) +
      (if o.orientation == 'v' && c.col == o.col then
         (if c.row == Front(o) then {'u'} else if Front(c) == o.row then {'d'} else {})
       else {})
    else {}
  }

  /** The blocked directions of car `i` after looking at the first `n` cars:
      never a direction off the car's axis. */
  function BlockedBefore(s: GameState, i: nat, n: nat): (blocked: set<char>)
    requires i < |s.cars| && n <= |s.cars|
    ensures s.cars[i].orientation == 'h' ==> blocked <= {'l', 'r'}
    ensures s.cars[i].orientation == 'v' ==> blocked <= {'u', 'd'}
    ensures s.cars[i].orientation != 'h' && s.cars[i].orientation != 'v' ==> blocked == {}
    ensures BlockedAtEdge(s, s.cars[i]) <= blocked
  {
    if n == 0 then BlockedAtEdge(s, s.cars[i])
    else BlockedBefore(s, i, n - 1) + (if n - 1 != i then BlockedBy(s.cars[i], s.cars[n - 1]) else {})
  }

  /** The blocked directions of car `i`: only directions on its axis, and
      always the edge flags. */
  function Blocked(s: GameState, i: nat): (blocked: set<char>)
    requires i < |s.cars|
    ensures s.cars[i].orientation == 'h' ==> blocked <= {'l', 'r'}
    ensures s.cars[i].orientation == 'v' ==> blocked <= {'u', 'd'}
    ensures s.cars[i].orientation != 'h' && s.cars[i].orientation != 'v' ==> blocked == {}
    ensures BlockedAtEdge(s, s.cars[i]) <= blocked
  {
    BlockedBefore(s, i, |s.cars|)
  }

  /** The blocked directions of car `i` are exactly the edge flags and the
      flags of every other car lying right next to it. */
  lemma BlockedExactly(s: GameState, i: nat)
    requires i < |s.cars|
    ensures forall j :: 0 <= j < |s.cars| && j != i ==> BlockedBy(s.cars[i], s.cars[j]) <= Blocked(s, i)
    ensures forall d :: d in Blocked(s, i) ==>
      d in BlockedAtEdge(s, s.cars[i]) || exists j :: 0 <= j < |s.cars| && j != i && d in BlockedBy(s.cars[i], s.cars[j])
  {
    BlockedBeforeCovers(s, i, |s.cars|);
  }

  /** The flags after the first `n` cars are the edge flags and the flags of
      the other cars among them. */
  lemma {:induction false} BlockedBeforeCovers(s: GameState, i: nat, n: nat)
    requires i < |s.cars| && n <= |s.cars|
    ensures forall j :: 0 <= j < n && j != i ==> BlockedBy(s.cars[i], s.cars[j]) <= BlockedBefore(s, i, n)
    ensures forall d :: d in BlockedBefore(s, i, n) ==>
      d in BlockedAtEdge(s, s.cars[i]) || exists j :: 0 <= j < n && j != i && d in BlockedBy(s.cars[i], s.cars[j])
  {
    if n > 0 {
      BlockedBeforeCovers(s, i, n - 1);
    }
  }

  lemma {:induction false} BlockedBeforeGrows(s: GameState, i: nat, m: nat, n: nat)
    requires i < |s.cars| && m <= n <= |s.cars|
    ensures BlockedBefore(s, i, m) <= BlockedBefore(s, i, n)
    decreases n - m
  {
    if m < n {
      BlockedBeforeGrows(s, i, m, n - 1);
    }
  }

  /** The pre-filter: the edge tests, then a scan over the other cars for
      one lying right next to the car. */
  method BlockedDirections(s: GameState, i: nat) returns (blocked: set<char>)
    requires i < |s.cars|
    ensures blocked == Blocked(s, i)
  {
    var car := s.cars[i];
    blocked := {};
    if car.orientation == 'h' {
      if car.col == 0 {
        blocked := blocked + {'l'};
      }
      if Front(car) == s.numCols - 1 {
        blocked := blocked + {'r'};
      }
      blocked := ScanHorizontal(s, i, blocked);
    } else if car.orientation == 'v' {
      if car.row == 0 {
        blocked := blocked + {'u'};
      }
      if Front(car) == s.numRows - 1 {
        blocked := blocked + {'d'};
      }
      blocked := ScanVertical(s, i, blocked);
    }
  }

  /** The scan for a horizontal car, with its early exit once both 'l' and
      'r' are blocked. */
  method ScanHorizontal(s: GameState, i: nat, atEdge: set<char>) returns (blocked: set<char>)
    requires i < |s.cars| && s.cars[i].orientation == 'h'
    requires atEdge == BlockedAtEdge(s, s.cars[i])
    ensures blocked == Blocked(s, i)
  {
    var car := s.cars[i];
    blocked := atEdge;
    for j := 0 to |s.cars|
      invariant blocked == BlockedBefore(s, i, j)
    {
      var other := s.cars[j];
      if j == i {
        continue;
      }
      if 'l' in blocked && 'r' in blocked {
        BlockedBeforeGrows(s, i, j, |s.cars|);
        break;
      }
      if other.orientation == 'h' && car.row == other.row {
        if car.col == Front(other) {
          blocked := blocked + {'l'};
        } else if Front(car) == other.col {
          blocked := blocked + {'r'};
        }
      } else if other.orientation == 'v' && car.row in Interval(other.row, other.length) {
        if car.col == other.col + 1 {
          blocked := blocked + {'l'};
        } else if Front(car) == other.col {
          blocked := blocked + {'r'};
        }
      }
    }
  }

  /** The scan for a vertical car, with its early exit once both 'u' and
      'd' are blocked. */
  method ScanVertical(s: GameState, i: nat, atEdge: set<char>) returns (blocked: set<char>)
    requires i < |s.cars| && s.cars[i].orientation == 'v'
    requires atEdge == BlockedAtEdge(s, s.cars[i])
    ensures blocked == Blocked(s, i)
  {
    var car := s.cars[i];
    blocked := atEdge;
    for j := 0 to |s.cars|
      invariant blocked == BlockedBefore(s, i, j)
    {
      var other := s.cars[j];
      if j == i {
        continue;
      }
      if 'u' in blocked && 'd' in blocked {
        BlockedBeforeGrows(s, i, j, |s.cars|);
        break;
      }
      if other.orientation == 'h' && car.col in Interval(other.col, other.length) {
        if car.row == other.row + 1 {
          blocked := blocked + {'u'};
        } else if Front(car) == other.row {
          blocked := blocked + {'d'};
        }
      }
      if other.orientation == 'v' && car.col == other.col {
        if car.row == Front(other) {
          blocked := blocked + {'u'};
        } else if Front(car) == other.row {
          blocked := blocked + {'d'};
        }
      }
    }
  }

  /** The edge rules of the pre-filter: 'l' at column 0, 'u' at row 0, and 'r'
      or 'd' when the car's far edge is at `numCols - 1` or `numRows - 1`. */
  lemma BlockedAtEdgeRules(s: GameState, i: nat)
    requires i < |s.cars|
    ensures var c := s.cars[i];
      && (c.orientation == 'h' && c.col == 0 ==> 'l' in Blocked(s, i))
      && (c.orientation == 'h' && Front(c) == s.numCols - 1 ==> 'r' in Blocked(s, i))
      && (c.orientation == 'v' && c.row == 0 ==> 'u' in Blocked(s, i))
      && (c.orientation == 'v' && Front(c) == s.numRows - 1 ==> 'd' in Blocked(s, i))
  {
  }

  /** The right and bottom edge rules fire one cell early: a lone horizontal
      car whose far edge is at `numCols - 1` is flagged as blocked to the right
      although the right scan lets it move one cell. */
  lemma BlockedRightOneCellEarly()
    ensures var s := GameState([Car(0, 3, 'h', 2)], 1, 6);
      'r' in Blocked(s, 0) && MaxSlide(s, 0, Right) == 1
  {
    var s := GameState([Car(0, 3, 'h', 2)], 1, 6);
    assert Gaps(s, 0, Right) == {};
  }

  /** The up scan skips a vertical car directly above (its strict `<`), but
      the pre-filter always flags 'u' for such a car, so the miss never
      produces a move. */
  lemma UpScanMissesAdjacentVertical(s: GameState, i: nat, j: nat)
    requires i < |s.cars| && j < |s.cars| && i != j
    requires s.cars[i].orientation == 'v' && s.cars[j].orientation == 'v'
    requires s.cars[j].col == s.cars[i].col && Front(s.cars[j]) == s.cars[i].row
    ensures Gap(s.cars[i], s.cars[j], Up).None?
    ensures 'u' in Blocked(s, i)
  {
    BlockedExactly(s, i);
    assert 'u' in BlockedBy(s.cars[i], s.cars[j]);
  }

  /** A board where the miss matters to the scan alone: car 1 sits directly
      above car 0, yet the up scan reports the full run of 2. */
  lemma UpScanMissExample()
    ensures var s := GameState([Car(2, 0, 'v', 2), Car(0, 0, 'v', 2)], 4, 1);
      MaxSlide(s, 0, Up) == 2 && 'u' in Blocked(s, 0)
  {
    var s := GameState([Car(2, 0, 'v', 2), Car(0, 0, 'v', 2)], 4, 1);
    assert Gaps(s, 0, Up) == {};
    assert 'u' in BlockedBy(s.cars[0], s.cars[1]);
  }

  // ---------------------------------------------------------------------
  // Boundary safety
  // ---------------------------------------------------------------------

  /** A car of positive length and one of the two orientations, lying inside
      the grid. */
  predicate CarInGrid(s: GameState, c: Car)
  {
    && (c.orientation == 'h' || c.orientation == 'v')
    && c.length >= 1 && c.row >= 0 && c.col >= 0
    && if c.orientation == 'v' then Front(c) <= s.numRows && c.col < s.numCols
       else Front(c) <= s.numCols && c.row < s.numRows
  }

  /** Two cars share no cell, stated through their extents. */
  predicate Apart(a: Car, b: Car)
  {
    if a.orientation == 'v' && b.orientation == 'v' then
      a.col != b.col || Front(a) <= b.row || Front(b) <= a.row
    else if a.orientation != 'v' && b.orientation != 'v' then
      a.row != b.row || Front(a) <= b.col || Front(b) <= a.col
    else if a.orientation == 'v' then
      !(a.row <= b.row < Front(a) && b.col <= a.col < Front(b))
    else
      !(b.row <= a.row < Front(b) && a.col <= b.col < Front(a))
  }

  /** `Apart` means what it says: for cars of positive length, no cell is
      covered by both. */
  lemma ApartIsNoSharedCell(a: Car, b: Car)
    requires a.length >= 1 && b.length >= 1
    ensures Apart(a, b) <==> forall r, k :: !(Covers(a, r, k) && Covers(b, r, k))
  {
    if !Apart(a, b) {
      if a.orientation == 'v' && b.orientation == 'v' {
        var r := if a.row < b.row then b.row else a.row;
        assert Covers(a, r, a.col) && Covers(b, r, a.col);
      } else if a.orientation != 'v' && b.orientation != 'v' {
        var k := if a.col < b.col then b.col else a.col;
        assert Covers(a, a.row, k) && Covers(b, a.row, k);
      } else if a.orientation == 'v' {
        assert Covers(a, b.row, a.col) && Covers(b, b.row, a.col);
      } else {
        assert Covers(a, a.row, b.col) && Covers(b, a.row, b.col);
      }
    }
  }

  /** A valid board: every car lies inside the grid and no two cars share a
      cell. */
  ghost predicate ValidBoard(s: GameState)
  {
    && (forall j :: 0 <= j < |s.cars| ==> CarInGrid(s, s.cars[j]))
    && (forall j, k :: 0 <= j < |s.cars| && 0 <= k < |s.cars| && j != k ==> Apart(s.cars[j], s.cars[k]))
  }

  /** A gap to a car of a valid board is never negative and stops short of
      the grid edge. */
  lemma GapInsideRun(s: GameState, c: Car, o: Car, dir: Dir)
    requires CarInGrid(s, c) && CarInGrid(s, o) && Apart(c, o)
    requires OnAxis(c.orientation, dir) && Gap(c, o, dir).Some?
    ensures 0 <= Gap(c, o, dir).value < FreeRun(s, c, dir)
  {
  }

  /** Car `c` moved `d` cells in direction `dir`. */
  function Shifted(c: Car, dir: Dir, d: int): Car
  {
    match dir
    case Up => c.(row := c.row - d)
    case Down => c.(row := c.row + d)
    case Left => c.(col := c.col - d)
    case Right => c.(col := c.col + d)
  }

  /** A car that moves no further than its gap to `o`, in a direction that
      `o` does not block by adjacency, stays apart from `o`. */
  lemma ShiftedStaysApart(s: GameState, c: Car, o: Car, dir: Dir, d: int)
    requires CarInGrid(s, c) && CarInGrid(s, o) && Apart(c, o)
    requires OnAxis(c.orientation, dir) && d >= 0
    requires Gap(c, o, dir).Some? ==> d <= Gap(c, o, dir).value
    requires DirChar(dir) !in BlockedBy(c, o)
    ensures Apart(Shifted(c, dir, d), o) && Apart(o, Shifted(c, dir, d))
  {
  }

  /** Moving a car no further than its run to the edge keeps it inside the
      grid. */
  lemma ShiftedInGrid(s: GameState, c: Car, dir: Dir, d: int)
    requires CarInGrid(s, c) && OnAxis(c.orientation, dir)
    requires 0 <= d <= FreeRun(s, c, dir)
    ensures CarInGrid(s, Shifted(c, dir, d))
  {
  }

  /** On a valid board the slide distance never exceeds the run to the
      edge. */
  lemma MaxSlideWithinRun(s: GameState, i: nat, dir: Dir)
    requires ValidBoard(s) && i < |s.cars| && OnAxis(s.cars[i].orientation, dir)
    ensures MaxSlide(s, i, dir) <= FreeRun(s, s.cars[i], dir)
  {
    var c := s.cars[i];
    var d := MaxSlide(s, i, dir);
    MaxSlideCases(s, i, dir);
    if !AtEdge(s, c, dir) && Gaps(s, i, dir) != {} {
      GapsBeforeSound(s, i, dir, |s.cars|, d);
      var j :| 0 <= j < |s.cars| && j != i && Gap(c, s.cars[j], dir) == Some(d);
      GapInsideRun(s, c, s.cars[j], dir);
    }
  }

  /** The slid car stays apart from every other car, provided the pre-filter
      lets the direction through. */
  lemma SlideStaysApart(s: GameState, i: nat, dir: Dir, j: nat)
    requires ValidBoard(s) && i < |s.cars| && j < |s.cars| && j != i
    requires OnAxis(s.cars[i].orientation, dir) && DirChar(dir) !in Blocked(s, i)
    requires MaxSlide(s, i, dir) > 0
    ensures Apart(Shifted(s.cars[i], dir, MaxSlide(s, i, dir)), s.cars[j])
    ensures Apart(s.cars[j], Shifted(s.cars[i], dir, MaxSlide(s, i, dir)))
  {
    var c := s.cars[i];
    MaxSlideCases(s, i, dir);
    BlockedExactly(s, i);
    assert BlockedBy(c, s.cars[j]) <= Blocked(s, i);
    if Gap(c, s.cars[j], dir).Some? {
      GapsBeforeComplete(s, i, dir, |s.cars|, j);
    }
    ShiftedStaysApart(s, c, s.cars[j], dir, MaxSlide(s, i, dir));
  }

  /** A slide replaces car `i` by its shifted copy. */
  lemma SlideIsShift(s: GameState, i: nat, dir: Dir, d: int)
    requires i < |s.cars|
    ensures Slide(s, i, dir, d) == s.(cars := s.cars[i := Shifted(s.cars[i], dir, d)])
  {
  }

  /** Replacing one car of a valid board by a car inside the grid that is
      apart from all the others gives a valid board. */
  lemma ReplaceKeepsValid(s: GameState, i: nat, nc: Car)
    requires ValidBoard(s) && i < |s.cars| && CarInGrid(s, nc)
    requires forall j :: 0 <= j < |s.cars| && j != i ==> Apart(nc, s.cars[j]) && Apart(s.cars[j], nc)
    ensures ValidBoard(s.(cars := s.cars[i := nc]))
  {
  }

  /** The full slide of car `i`, when the pre-filter lets the direction
      through and the distance is positive, keeps a valid board valid: the
      car stays inside the grid and off every other car. The pre-filter is
      needed: the up scan alone misses a vertical car right above. */
  lemma SlideKeepsValid(s: GameState, i: nat, dir: Dir)
    requires ValidBoard(s) && i < |s.cars|
    requires OnAxis(s.cars[i].orientation, dir) && DirChar(dir) !in Blocked(s, i)
    requires MaxSlide(s, i, dir) > 0
    ensures ValidBoard(Slide(s, i, dir, MaxSlide(s, i, dir)))
  {
    var c := s.cars[i];
    var d := MaxSlide(s, i, dir);
    MaxSlideWithinRun(s, i, dir);
    ShiftedInGrid(s, c, dir, d);
    forall j | 0 <= j < |s.cars| && j != i
      ensures Apart(Shifted(c, dir, d), s.cars[j]) && Apart(s.cars[j], Shifted(c, dir, d))
    {
      SlideStaysApart(s, i, dir, j);
    }
    ReplaceKeepsValid(s, i, Shifted(c, dir, d));
    SlideIsShift(s, i, dir, d);
  }

  /** Without the pre-filter the slide can collide: on this valid board the
      up scan reports 2 for car 0, yet sliding car 0 up by 2 puts it on car 1.
      Only the `'u'` flag keeps that move out. */
  lemma UnfilteredUpSlideCollides()
    ensures var s := GameState([Car(2, 0, 'v', 2), Car(0, 0, 'v', 2)], 4, 1);
      && ValidBoard(s) && MaxSlide(s, 0, Up) == 2 && 'u' in Blocked(s, 0)
      && !ValidBoard(Slide(s, 0, Up, MaxSlide(s, 0, Up)))
  {
    var s := GameState([Car(2, 0, 'v', 2), Car(0, 0, 'v', 2)], 4, 1);
    UpScanMissExample();
    var t := Slide(s, 0, Up, 2);
    assert !Apart(t.cars[0], t.cars[1]);
  }

}
