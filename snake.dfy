/**
 * The snake's body: a double-ended queue of cells with the head at the front,
 * and the heading it moves in. `body` is the deque; the methods reassign it.
 */
module SnakeBody {
  import opened Geometry

  /** The body a new snake starts with: three cells in a row, head rightmost. */
  const InitialBody: seq<Point> := [Point(25, 25), Point(24, 25), Point(23, 25)]

  /** One past the last index the body scan examines: the tail is left out when asked and the body has more than one cell. */
  function ScanEnd(body: seq<Point>, skipTail: bool): (n: nat)
    ensures n <= |body|
    ensures n == |body| - 1 <==> skipTail && |body| > 1
  {
    if skipTail && |body| > 1 then |body| - 1 else |body|
  }

  /**
   * `p` equals a body cell other than the head (index 0), and other than the
   * tail when `skipTail` holds for a body of more than one cell.
   */
  predicate OnBody(body: seq<Point>, p: Point, skipTail: bool)
  {
    exists i :: 1 <= i < ScanEnd(body, skipTail) && body[i] == p
  }

  /** The head coincides with some later cell of the body. */
  predicate SelfCollides(body: seq<Point>)
  {
    |body| >= 2 && exists i :: 1 <= i < |body| && body[i] == body[0]
  }

  /** The body after one step in heading `d`: a new head in front, the last cell dropped. */
  function Moved(body: seq<Point>, d: Direction): (r: seq<Point>)
    requires |body| >= 1
    ensures |r| == |body|
    ensures r[0] == Shift(body[0], d)
    ensures forall i :: 1 <= i < |r| ==> r[i] == body[i - 1]
  {
    [Shift(body[0], d)] + body[..|body| - 1]
  }

  /** The body after growing: the last cell is repeated. */
  function Grown(body: seq<Point>): (r: seq<Point>)
    requires |body| >= 1
    ensures |r| == |body| + 1
    ensures r[..|body|] == body && r[|body|] == body[|body| - 1]
  {
    body + [body[|body| - 1]]
  }

  /** Skipping the tail only narrows the scan. */
  lemma OnBodySkipTailImplies(body: seq<Point>, p: Point)
    ensures OnBody(body, p, true) ==> OnBody(body, p, false)
  {
  }

  /** Self-collision is the head being found by the full scan. */
  lemma SelfCollidesIsHeadOnBody(body: seq<Point>)
    requires |body| >= 1
    ensures SelfCollides(body) <==> OnBody(body, body[0], false)
  {
  }

  /**
   * After growth the tail-skipping scan finds exactly what the full scan of
   * the body before growth finds: the repeated last cell hides itself.
   */
  lemma GrownScanWithSkip(body: seq<Point>, p: Point)
    requires |body| >= 1
    ensures OnBody(Grown(body), p, true) <==> OnBody(body, p, false)
  {
    var g := Grown(body);
    if OnBody(g, p, true) {
      var i :| 1 <= i < ScanEnd(g, true) && g[i] == p;
      assert i < |body| && g[i] == body[i];
    }
    if OnBody(body, p, false) {
      var i :| 1 <= i < ScanEnd(body, false) && body[i] == p;
      assert g[i] == body[i];
    }
  }

  /**
   * A moved body whose head is clear of the rest stays clear after growing,
   * and the full scan of the grown body does not find the head's cell.
   */
  lemma GrownKeepsHeadClear(m: seq<Point>)
    requires |m| >= 2 && !SelfCollides(m)
    ensures !OnBody(Grown(m), m[0], false)
    ensures !SelfCollides(Grown(m))
  {
    var g := Grown(m);
    forall i | 1 <= i < |g| ensures g[i] != m[0] {
      if i < |m| {
        assert g[i] == m[i];
      } else {
        assert g[i] == m[|m| - 1];
      }
    }
  }

  class Snake {
    /** Cells from head (index 0) to tail. */
    var body: seq<Point>
    var direction: Direction

    constructor ()
      ensures body == InitialBody
      ensures |body| == 3 && body[0] == Point(25, 25) && body[1] == Point(24, 25) && body[2] == Point(23, 25)
      ensures direction == Right
    {
      body := [Point(25, 25)];
      body := body + [Point(24, 25)];
      body := body + [Point(23, 25)];
      direction := Right;
    }

    /** Moves one cell: pushes the shifted head and pops the tail. */
    method Update()
      requires |body| >= 1
      modifies this
      ensures body == Moved(old(body), old(direction))
      ensures |body| == |old(body)|
      ensures body[0] == Shift(old(body)[0], direction)
      ensures body[1..] == old(body)[..|old(body)| - 1]
      ensures direction == old(direction)
    {
      var newHead := Shift(body[0], direction);
      body := [newHead] + body;
      body := body[..|body| - 1];
    }

    /** Repeats the last cell, so the next move keeps the length gained. */
    method Grow()
      requires |body| >= 1
      modifies this
      ensures body == Grown(old(body))
      ensures |body| == |old(body)| + 1
      ensures body[..|old(body)|] == old(body)
      ensures body[|body| - 1] == old(body)[|old(body)| - 1]
      ensures direction == old(direction)
    {
      body := body + [body[|body| - 1]];
    }

    /** Linear scan from index 1 for a cell equal to the head. */
    method HitItself() returns (hit: bool)
      ensures |body| < 2 ==> !hit
      ensures hit <==> exists i :: 1 <= i < |body| && body[i] == body[0]
      ensures hit == SelfCollides(body)
    {
      if |body| < 2 {
        return false;
      }
      var head := body[0];
      var i := 1;
      while i < |body|
        invariant 1 <= i <= |body|
        invariant forall j :: 1 <= j < i ==> body[j] != head
      {
        if head == body[i] {
          return true;
        }
        i := i + 1;
      }
      return false;
    }

    /**
     * Linear scan of the cells after the head for `p`; the tail is left out
     * when `skipTail` is set and the body has more than one cell.
     */
    method IsPointOnBody(p: Point, skipTail: bool) returns (on: bool)
      requires |body| >= 1
      ensures on <==> exists i :: 1 <= i < |body| && body[i] == p && !(skipTail && |body| > 1 && i == |body| - 1)
      ensures on == OnBody(body, p, skipTail)
    {
      var end := |body|;
      if skipTail && |body| > 1 {
        end := end - 1;
      }
      var i := 1;
      while i != end
        invariant 1 <= i <= end
        invariant forall j :: 1 <= j < i ==> body[j] != p
      {
        if body[i] == p {
          return true;
        }
        i := i + 1;
      }
      return false;
    }
  }
}
