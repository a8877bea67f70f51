/** A Rush Hour car: its leading cell, its orientation and its length. */
module Cars {

  /** A car record. `orientation` is the raw character of the puzzle input:
      'h' for horizontal and 'v' for vertical; any other character is kept,
      because the board code treats it through its `else` branches. */
  datatype Car = Car(row: int, col: int, orientation: char, length: int)

  /** The coordinate of the car's leading cell along the axis it moves on. */
  function Lead(c: Car): int
  {
    if c.orientation == 'v' then c.row else c.col
  }

  /** True when the car covers the cell (r, k): a vertical car covers a run of
      rows in its column, any other car a run of columns in its row. */
  predicate Covers(c: Car, r: int, k: int)
  {
    if c.orientation == 'v' then k == c.col && c.row <= r < c.row + c.length
    else r == c.row && c.col <= k < c.col + c.length
  }

  /** The exclusive far edge of the car along its axis: the first coordinate
      past its last cell. */
  function Front(c: Car): (f: int)
    ensures c.length >= 1 ==> f > Lead(c)
    ensures forall x :: Lead(c) <= x < f <==>
      (if c.orientation == 'v' then Covers(c, x, c.col) else Covers(c, c.row, x))
  {
    if c.orientation == 'v' then c.row + c.length else c.col + c.length
  }

  /** `Front` is the first cell past the car: a car of positive length covers
      the cell just before its front and not the front cell itself. */
  lemma FrontIsExclusiveEdge(c: Car)
    requires c.length >= 1
    ensures c.orientation == 'v' ==> Covers(c, Front(c) - 1, c.col) && !Covers(c, Front(c), c.col)
    ensures c.orientation != 'v' ==> Covers(c, c.row, Front(c) - 1) && !Covers(c, c.row, Front(c))
  {
  }

}
