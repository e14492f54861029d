/**
 * The arena: a snake, a food item and a score on a 50 x 30 grid of cells
 * (a 1000 x 600 pixel area cut into 20-pixel cells). It reads the game state
 * as a six-value observation, steers the snake from keys or from a network's
 * outputs, and advances one tick at a time.
 */
module Simulation {
  import opened Geometry
  import opened SnakeBody
  import opened MaxElement

  /** Columns and rows of the arena, as the world's constructor fixes them (1000 / 20 and 600 / 20). */
  const Cols: int := 50
  const Rows: int := 30

  /** Where the food starts and where a reset puts it back. */
  const FoodStart: Point := Point(10, 10)

  predicate InGrid(p: Point)
  {
    0 <= p.x < Cols && 0 <= p.y < Rows
  }

  /** The network output index that selects each heading: 0 up, 1 down, 2 left, 3 right. */
  function ActionHeading(i: nat): (d: Direction)
    requires i < 4
    ensures i == 0 <==> d == Up
    ensures i == 1 <==> d == Down
    ensures i == 2 <==> d == Left
    ensures i == 3 <==> d == Right
  {
    if i == 0 then Up else if i == 1 then Down else if i == 2 then Left else Right
  }

  /** Keys a human player may press; only W, S, A and D steer. */
  datatype Key = KeyW | KeyS | KeyA | KeyD | OtherKey(code: int)

  /** An input event: a key press, or any other kind of event. */
  datatype Event = KeyDown(key: Key) | OtherEvent(kind: int)

  predicate IsSteeringKey(k: Key)
  {
    !k.OtherKey?
  }

  /** The heading a steering key asks for. */
  function KeyHeading(k: Key): Direction
    requires IsSteeringKey(k)
  {
    match k
    case KeyW => Up
    case KeyS => Down
    case KeyA => Left
    case KeyD => Right
  }

  /** -1, 0 or 1 as `target` lies below, at or above `from` on one axis. */
  function Toward(target: int, from: int): (s: real)
    ensures s == -1.0 || s == 0.0 || s == 1.0
    ensures s < 0.0 <==> target < from
    ensures s == 0.0 <==> target == from
    ensures s > 0.0 <==> target > from
  {
    if target < from then -1.0 else if target > from then 1.0 else 0.0
  }

  /** 1 for danger, 0 for safe. */
  function Flag(b: bool): real
  {
    if b then 1.0 else 0.0
  }

  /**
   * The stream of cells that successive random food moves produce stays
   * inside the arena (`move_randomly` draws below the column and row counts).
   */
  ghost predicate DrawsInGrid(draw: nat -> Point)
  {
    forall k :: InGrid(draw(k))
  }

  ghost predicate DrawnFrom(draw: nat -> Point, p: Point, n: nat)
  {
    exists k :: k >= n && draw(k) == p
  }

  /** Every arena cell is drawn again from any point of the stream on. */
  ghost predicate Fair(draw: nat -> Point)
  {
    forall p, n: nat :: InGrid(p) ==> DrawnFrom(draw, p, n)
  }

  /** The state one game changes, as a value: the body and heading, the food cell and the score. */
  datatype Arena = Arena(body: seq<Point>, heading: Direction, food: Point, score: int)

  /** The arena a new game, and every reset, starts from. */
  const StartArena: Arena := Arena(InitialBody, Right, FoodStart, 0)

  /** Danger at a cell, as a value: outside the arena, or on the body with the tail left out. */
  predicate Danger(body: seq<Point>, p: Point)
  {
    !InGrid(p) || OnBody(body, p, true)
  }

  /** The six observation values of a body and food cell, in the order the world reports them. */
  function Observation(body: seq<Point>, food: Point): seq<real>
    requires |body| >= 1
  {
    var head := body[0];
    [Flag(Danger(body, Shift(head, Up))), Flag(Danger(body, Shift(head, Down))),
     Flag(Danger(body, Shift(head, Left))), Flag(Danger(body, Shift(head, Right))),
     Toward(food.x, head.x), Toward(food.y, head.y)]
  }

  /** The heading after network steering: the first largest output's index picks it, an index past 3 keeps it. */
  function Steer(heading: Direction, outputs: seq<real>): (d: Direction)
    ensures FirstMaxIndex(outputs) < 4 ==> d == ActionHeading(FirstMaxIndex(outputs))
    ensures FirstMaxIndex(outputs) >= 4 ==> d == heading
    ensures |outputs| == 0 ==> d == Up
  {
    var i := FirstMaxIndex(outputs);
    if i < 4 then ActionHeading(i) else heading
  }

  /** Some arena cell is not found by the full body scan. */
  ghost predicate HasFreeCell(body: seq<Point>)
  {
    exists p :: InGrid(p) && !OnBody(body, p, false)
  }

  /** A grown body whose head was clear before growing leaves a free cell: the head's own, or (0, 0) or (1, 0) for one cell. */
  lemma GrownHasFreeCell(m: seq<Point>)
    requires |m| >= 1 && InGrid(m[0]) && !SelfCollides(m)
    ensures HasFreeCell(Grown(m))
    ensures |m| >= 2 ==> !SelfCollides(Grown(m))
  {
    if |m| >= 2 {
      GrownKeepsHeadClear(m);
      assert InGrid(m[0]) && !OnBody(Grown(m), m[0], false);
    } else {
      var free := if m[0] == Point(0, 0) then Point(1, 0) else Point(0, 0);
      assert InGrid(free) && !OnBody(Grown(m), free, false);
    }
  }

  /** The first index from `k` up to a known free draw `bound` whose cell the full scan does not find. */
  ghost function FreeDrawFrom(body: seq<Point>, draw: nat -> Point, k: nat, bound: nat): (j: nat)
    requires k <= bound && !OnBody(body, draw(bound), false)
    ensures k <= j <= bound && !OnBody(body, draw(j), false)
    ensures forall i :: k <= i < j ==> OnBody(body, draw(i), false)
    decreases bound - k
  {
    if !OnBody(body, draw(k), false) then k else FreeDrawFrom(body, draw, k + 1, bound)
  }

  /**
   * The index of the first draw, from `cursor` on, that the full body scan
   * does not find: where the food-placement loop stops.
   */
  ghost function FirstFreeDraw(body: seq<Point>, draw: nat -> Point, cursor: nat): (j: nat)
    requires Fair(draw) && HasFreeCell(body)
    ensures cursor <= j && !OnBody(body, draw(j), false)
    ensures forall i :: cursor <= i < j ==> OnBody(body, draw(i), false)
  {
    var free :| InGrid(free) && !OnBody(body, free, false);
    assert DrawnFrom(draw, free, cursor);
    var bound :| bound >= cursor && draw(bound) == free;
    FreeDrawFrom(body, draw, cursor, bound)
  }

  /** Only one index is the first free draw. */
  lemma FirstFreeDrawUnique(body: seq<Point>, draw: nat -> Point, cursor: nat, j: nat)
    requires Fair(draw) && HasFreeCell(body)
    requires cursor <= j && !OnBody(body, draw(j), false)
    requires forall i :: cursor <= i < j ==> OnBody(body, draw(i), false)
    ensures j == FirstFreeDraw(body, draw, cursor)
  {
  }

  /**
   * One tick on values: move; on a wall or self collision start over;
   * otherwise, with the head on the food, grow, score one and put the food
   * on the first free draw. Gives the new arena and the stream position
   * after the last draw used.
   */
  ghost function Tick(a: Arena, draw: nat -> Point, cursor: nat): (r: (Arena, nat))
    requires |a.body| >= 1 && DrawsInGrid(draw) && Fair(draw)
    ensures |r.0.body| >= 1 && InGrid(r.0.body[0])
    ensures InGrid(a.food) ==> InGrid(r.0.food)
    ensures |a.body| >= 2 ==> |r.0.body| >= 2 && !SelfCollides(r.0.body)
    ensures r.0 == StartArena || r.0.score == a.score || r.0.score == a.score + 1
    ensures cursor <= r.1
  {
    var moved := Moved(a.body, a.heading);
    if !InGrid(moved[0]) || SelfCollides(moved) then (StartArena, cursor)
    else if moved[0] == a.food then
      GrownHasFreeCell(moved);
      var j := FirstFreeDraw(Grown(moved), draw, cursor);
      (Arena(Grown(moved), a.heading, draw(j), a.score + 1), j + 1)
    else (Arena(moved, a.heading, a.food, a.score), cursor)
  }

  /**
   * What one tick does, case by case: after a wall or self collision the
   * start arena and no draw used; on the food the grown body, one more
   * point and the food on the first free draw; otherwise only the move.
   */
  ghost predicate TickOutcome(a: Arena, b: Arena, draw: nat -> Point, cursor: nat, next: nat)
    requires |a.body| >= 1
  {
    var moved := Moved(a.body, a.heading);
    if !InGrid(moved[0]) || SelfCollides(moved) then
      b == StartArena && next == cursor
    else if moved[0] == a.food then
      b.body == Grown(moved) && b.heading == a.heading && b.score == a.score + 1 &&
      cursor < next && b.food == draw(next - 1) && InGrid(b.food) && !OnBody(b.body, b.food, false) &&
      (forall k :: cursor <= k < next - 1 ==> OnBody(b.body, draw(k), false))
    else
      b == Arena(moved, a.heading, a.food, a.score) && next == cursor
  }

  /** The case-by-case outcome is exactly the value tick: the first free draw is the only one that fits. */
  lemma TickOutcomeIsTick(a: Arena, b: Arena, draw: nat -> Point, cursor: nat, next: nat)
    requires |a.body| >= 1 && DrawsInGrid(draw) && Fair(draw)
    ensures TickOutcome(a, b, draw, cursor, next) <==> (b, next) == Tick(a, draw, cursor)
  {
    var moved := Moved(a.body, a.heading);
    if InGrid(moved[0]) && !SelfCollides(moved) && moved[0] == a.food {
      GrownHasFreeCell(moved);
      if TickOutcome(a, b, draw, cursor, next) {
        FirstFreeDrawUnique(Grown(moved), draw, cursor, next - 1);
      }
    }
  }

  class Food {
    var position: Point

    constructor (x: int, y: int)
      ensures position == Point(x, y)
    {
      position := Point(x, y);
    }
  }

  class World {
    /** The snake and the food are owned by the caller; the world refers to them. */
    const snake: Snake
    const food: Food
    const width: int
    const height: int
    const cellSize: int
    var score: int

    ghost predicate Valid()
      reads this, snake
    {
      width == 1000 && height == 600 && cellSize == 20 && |snake.body| >= 1 && score >= 0
    }

    /** The snake, the food and the score as one value. */
    ghost function State(): Arena
      reads this, snake, food
    {
      Arena(snake.body, snake.direction, food.position, score)
    }

    constructor (snake: Snake, food: Food)
      ensures this.snake == snake && this.food == food
      ensures width == 1000 && height == 600 && cellSize == 20 && score == 0
      ensures width / cellSize == Cols && height / cellSize == Rows
      ensures Valid() <==> |snake.body| >= 1
    {
      this.snake := snake;
      this.food := food;
      width := 1000;
      height := 600;
      cellSize := 20;
      score := 0;
    }

    /** The head has left the arena. */
    function HitWall(): (hit: bool)
      reads this, snake
      requires Valid()
      ensures hit <==> !InGrid(snake.body[0])
    {
      var head := snake.body[0];
      head.x < 0 || head.x >= width / cellSize || head.y < 0 || head.y >= height / cellSize
    }

    predicate IsEatingFood()
      reads this, snake, food
      requires Valid()
    {
      snake.body[0] == food.position
    }

    /** A cell is dangerous if it is outside the arena or on the body, the tail excepted (the tail moves away this tick). */
    function IsDangerAt(p: Point): (danger: bool)
      reads this, snake
      requires Valid()
      ensures !InGrid(p) ==> danger
      ensures InGrid(p) ==> (danger <==> exists i :: 1 <= i < |snake.body| - 1 && snake.body[i] == p)
    {
      if p.x < 0 || p.x >= width / cellSize || p.y < 0 || p.y >= height / cellSize then true
      else OnBody(snake.body, p, true)
    }

    /**
     * The observation: danger flags for the cells above, below, left and
     * right of the head, then the direction of the food on each axis.
     */
    function GameState(): (inputs: seq<real>)
      reads this, snake, food
      requires Valid()
      ensures |inputs| == 6
      ensures forall i :: 0 <= i < 4 ==>
                (inputs[i] == 0.0 || inputs[i] == 1.0) &&
                (inputs[i] == 1.0 <==> IsDangerAt(Shift(snake.body[0], ActionHeading(i))))
      ensures inputs[4] == -1.0 || inputs[4] == 0.0 || inputs[4] == 1.0
      ensures inputs[5] == -1.0 || inputs[5] == 0.0 || inputs[5] == 1.0
      ensures inputs[4] < 0.0 <==> food.position.x < snake.body[0].x
      ensures inputs[4] > 0.0 <==> food.position.x > snake.body[0].x
      ensures inputs[5] < 0.0 <==> food.position.y < snake.body[0].y
      ensures inputs[5] > 0.0 <==> food.position.y > snake.body[0].y
      ensures inputs == Observation(snake.body, food.position)
    {
      var head := snake.body[0];
      var up := Point(head.x, head.y - 1);
      var down := Point(head.x, head.y + 1);
      var left := Point(head.x - 1, head.y);
      var right := Point(head.x + 1, head.y);
      [Flag(IsDangerAt(up)), Flag(IsDangerAt(down)), Flag(IsDangerAt(left)), Flag(IsDangerAt(right)),
       Toward(food.position.x, head.x), Toward(food.position.y, head.y)]
    }

    /** Puts the snake, the food and the score back to the start of a game. */
    method Reset()
      modifies this, snake, food
      ensures snake.body == InitialBody && snake.direction == Right
      ensures food.position == FoodStart && score == 0
    {
      snake.body := [];
      snake.body := [Point(25, 25)] + snake.body;
      snake.body := snake.body + [Point(24, 25)];
      snake.body := snake.body + [Point(23, 25)];
      snake.direction := Right;
      food.position := FoodStart;
      score := 0;
    }

    /** Keyboard steering: W, S, A, D select a heading unless it reverses the current one. */
    method HandleInput(ev: Event)
      modifies snake`direction
      ensures snake.direction != Opposite(old(snake.direction))
      ensures (ev.KeyDown? && IsSteeringKey(ev.key) && old(snake.direction) != Opposite(KeyHeading(ev.key)))
                ==> snake.direction == KeyHeading(ev.key)
      ensures (!(ev.KeyDown? && IsSteeringKey(ev.key)) || old(snake.direction) == Opposite(KeyHeading(ev.key)))
                ==> snake.direction == old(snake.direction)
    {
      if ev.KeyDown? {
        match ev.key
        case KeyW =>
          if snake.direction != Down { snake.direction := Up; }
        case KeyS =>
          if snake.direction != Up { snake.direction := Down; }
        case KeyA =>
          if snake.direction != Right { snake.direction := Left; }
        case KeyD =>
          if snake.direction != Left { snake.direction := Right; }
        case OtherKey(_) =>
      }
    }

    /**
     * Network steering: the first largest output picks the heading by index;
     * an index past 3 leaves the heading alone, and nothing stops a reversal.
     */
    method HandleAiInput(brain: seq<real> -> seq<real>)
      requires Valid()
      modifies snake`direction
      ensures var outputs := brain(old(GameState()));
              var d := FirstMaxIndex(outputs);
              (d < 4 ==> snake.direction == ActionHeading(d)) &&
              (d >= 4 ==> snake.direction == old(snake.direction))
      ensures |brain(old(GameState()))| == 0 ==> snake.direction == Up
      ensures snake.direction == Steer(old(snake.direction), brain(Observation(snake.body, food.position)))
    {
      var inputs := GameState();
      var outputs := brain(inputs);
      var decision := FirstMaxIndex(outputs);
      if decision == 0 {
        snake.direction := Up;
      } else if decision == 1 {
        snake.direction := Down;
      } else if decision == 2 {
        snake.direction := Left;
      } else if decision == 3 {
        snake.direction := Right;
      }
    }

    /**
     * The food-placement loop of a tick: draw cells from `draw(cursor)` on
     * until the full body scan (which never looks at the head) does not find
     * one; the food ends there. A free cell must exist for the loop to end.
     */
    method RelocateFood(draw: nat -> Point, cursor: nat) returns (next: nat)
      requires Valid()
      requires DrawsInGrid(draw) && Fair(draw)
      requires exists p :: InGrid(p) && !OnBody(snake.body, p, false)
      modifies food
      ensures cursor < next && food.position == draw(next - 1)
      ensures InGrid(food.position) && !OnBody(snake.body, food.position, false)
      ensures forall k :: cursor <= k < next - 1 ==> OnBody(snake.body, draw(k), false)
    {
      ghost var free :| InGrid(free) && !OnBody(snake.body, free, false);
      assert DrawnFrom(draw, free, cursor);
      ghost var target :| target >= cursor && draw(target) == free;
      next := cursor;
      var onSnake := true;
      while onSnake
        invariant cursor <= next <= target + 1
        invariant onSnake ==> next <= target
        invariant forall k :: cursor <= k < next - 1 ==> OnBody(snake.body, draw(k), false)
        invariant onSnake ==> next == cursor || OnBody(snake.body, draw(next - 1), false)
        invariant !onSnake ==> cursor < next && food.position == draw(next - 1) &&
                               !OnBody(snake.body, food.position, false)
        decreases target + 1 - next
      {
        food.position := draw(next);
        next := next + 1;
        onSnake := snake.IsPointOnBody(food.position, false);
      }
    }

    /**
     * One tick: move; on a wall or self collision reset; then, if the head is
     * on the food, grow, score, and move the food to the first drawn cell
     * (from `draw(cursor)` on) that the full body scan does not find.
     * Returns the position of the stream after the last draw used.
     */
    method Update(draw: nat -> Point, cursor: nat) returns (next: nat)
      requires Valid()
      requires DrawsInGrid(draw) && Fair(draw)
      modifies this, snake, food
      ensures Valid()
      ensures TickOutcome(old(State()), State(), draw, cursor, next)
      ensures InGrid(snake.body[0])
      ensures |old(snake.body)| >= 2 ==> |snake.body| >= 2 && !SelfCollides(snake.body)
    {
      ghost var moved := Moved(snake.body, snake.direction);
      snake.Update();
      var hitSelf := snake.HitItself();
      if HitWall() || hitSelf {
        Reset();
        assert !InGrid(moved[0]) || SelfCollides(moved);
      } else {
        assert InGrid(moved[0]) && !SelfCollides(moved) && snake.body == moved;
      }
      next := cursor;
      if IsEatingFood() {
        assert snake.body == moved;
        snake.Grow();
        ghost var free: Point;
        if |moved| >= 2 {
          GrownKeepsHeadClear(moved);
          free := moved[0];
        } else {
          free := if moved[0] == Point(0, 0) then Point(1, 0) else Point(0, 0);
        }
        assert InGrid(free) && !OnBody(snake.body, free, false);
        next := RelocateFood(draw, cursor);
        score := score + 1;
      }
    }
  }
}
