/** Drawing helpers of the board: the rotation of the head, body and tail
    images, and the list of points the body is drawn through. */
module Render {
  import opened Geometry

  /** A point on the board in cell units; body points may fall halfway
      between two cells. */
  datatype Point = Point(x: real, y: real)

  function ToPoint(p: Position): Point {
    Point(p.x as real, p.y as real)
  }

  function Midpoint(a: Position, b: Position): Point {
    Point((a.x + b.x) as real / 2.0, (a.y + b.y) as real / 2.0)
  }

  /** The heading an image drawn facing right shows once it is turned
      clockwise on screen by `angle` degrees (a quarter-turn multiple). */
  function Facing(angle: int): Direction
    requires angle % 90 == 0
  {
    var a := angle % 360;
    if a == 0 then Right
    else if a == 90 then Down
    else if a == 180 then Left
    else Up
  }

  /** Rotation of the head image: it faces the way the snake is moving. */
  function HeadRotation(d: Direction): (r: int)
    ensures -90 <= r <= 180 && r % 90 == 0
    ensures Facing(r) == d
  {
    match d
    case Up => -90
    case Right => 0
    case Down => 90
    case Left => 180
  }

  /** Rotation of a body segment image at `current`, between `prev` and `next`. */
  function BodyRotation(prev: Position, current: Position, next: Position): (r: int)
    ensures r == 0 || r == 90 || r == 180 || r == 270
    ensures prev.x == next.x ==> r == 90
    ensures prev.x != next.x && prev.y == next.y ==> r == 0
    ensures prev.x == current.x ==> r == 0 || prev.x == next.x
  {
    if prev.x == next.x then 90
    else if prev.y == next.y then 0
    else if prev.x < current.x && current.y < next.y then 0
    else if prev.x > current.x && current.y < next.y then 90
    else if prev.x < current.x && current.y > next.y then 270
    else if prev.x > current.x && current.y > next.y then 180
    else 0
  }

  /** A corner entered sideways: `prev` beside `current` on its row, `next`
      above or below it. */
  predicate SidewaysCorner(prev: Position, current: Position, next: Position) {
    prev.y == current.y && Manhattan(prev, current) == 1
    && next.x == current.x && Manhattan(current, next) == 1
  }

  /** The four corners entered sideways at one cell get four different
      rotations, so the rotation tells which corner is drawn. */
  lemma SidewaysCornerRotationsDiffer(p1: Position, n1: Position, c: Position, p2: Position, n2: Position)
    requires SidewaysCorner(p1, c, n1) && SidewaysCorner(p2, c, n2)
    requires BodyRotation(p1, c, n1) == BodyRotation(p2, c, n2)
    ensures p1 == p2 && n1 == n2
  {
  }

  /** Rotation of the tail image: it faces from the tail towards the
      segment before it. */
  function TailRotation(tail: Position, beforeTail: Position): (r: int)
    ensures 0 <= r < 360 && r % 90 == 0
    ensures Manhattan(tail, beforeTail) == 1 ==> Step(tail, Facing(r)) == beforeTail
  {
    if tail.x < beforeTail.x then 0
    else if tail.x > beforeTail.x then 180
    else if tail.y < beforeTail.y then 90
    else 270
  }

  /** The points the body is drawn through: every segment but the last, with
      the midpoint towards the next segment after each of them except the
      last two, then the last segment. Fewer than two segments draw nothing. */
  method CalculateSnakePoints(snake: seq<Position>) returns (points: seq<Point>)
    ensures |snake| < 2 ==> points == []
    ensures |snake| >= 2 ==> |points| == 2 * |snake| - 2
    ensures |snake| >= 2 ==> points[0] == ToPoint(snake[0])
    ensures |snake| >= 2 ==> points[|points| - 1] == ToPoint(snake[|snake| - 1])
    ensures |snake| >= 2 ==> forall i :: 0 <= i <= |snake| - 2 ==> points[2 * i] == ToPoint(snake[i])
    ensures |snake| >= 2 ==> forall i :: 0 <= i < |snake| - 2 ==> points[2 * i + 1] == Midpoint(snake[i], snake[i + 1])
  {
    if |snake| < 2 {
      return [];
    }
    var n := |snake|;
    points := [];
    var i := 0;
    while i < n - 1
      invariant 0 <= i <= n - 1
      invariant |points| == if i < n - 1 then 2 * i else 2 * i - 1
      invariant forall k :: 0 <= k < i ==> points[2 * k] == ToPoint(snake[k])
      invariant forall k :: 0 <= k < i && k < n - 2 ==> points[2 * k + 1] == Midpoint(snake[k], snake[k + 1])
    {
      var current := snake[i];
      var next := snake[i + 1];
      points := points + [ToPoint(current)];
      if i < n - 2 {
        points := points + [Midpoint(current, next)];
      }
      i := i + 1;
    }
    points := points + [ToPoint(snake[n - 1])];
  }
}
