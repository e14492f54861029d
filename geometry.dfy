/**
 * Grid cells and headings shared by the snake, the world and the trainer.
 */
module Geometry {

  /** A grid cell; coordinates are cell indices, not pixels. */
  datatype Point = Point(x: int, y: int)

  /** The four absolute headings, in the order the source's enum declares them. */
  datatype Direction = Up | Down | Left | Right

  /** The cell one step away from `p` in heading `d` (y grows downwards). */
  function Shift(p: Point, d: Direction): (q: Point)
    ensures (q.x - p.x) * (q.x - p.x) + (q.y - p.y) * (q.y - p.y) == 1
    ensures d == Up ==> q.y < p.y
    ensures d == Down ==> q.y > p.y
    ensures d == Left ==> q.x < p.x
    ensures d == Right ==> q.x > p.x
  {
    match d
    case Up => Point(p.x, p.y - 1)
    case Down => Point(p.x, p.y + 1)
    case Left => Point(p.x - 1, p.y)
    case Right => Point(p.x + 1, p.y)
  }

  /** The heading that points back the way `d` came. */
  function Opposite(d: Direction): (r: Direction)
    ensures r != d
  {
    match d
    case Up => Down
    case Down => Up
    case Left => Right
    case Right => Left
  }

  /** Moving one way and then the opposite way returns to the start cell. */
  lemma ShiftOppositeReturns(p: Point, d: Direction)
    ensures Shift(Shift(p, d), Opposite(d)) == p
    ensures Opposite(Opposite(d)) == d
  {
  }

  /** The four neighbours of a cell are pairwise distinct. */
  lemma ShiftInjective(p: Point, d: Direction, e: Direction)
    requires d != e
    ensures Shift(p, d) != Shift(p, e)
  {
  }
}
