/** Grid geometry of the Snake board: cells, headings and one-cell moves.
    Screen coordinates: x grows to the right, y grows downwards. */
module Geometry {

  /** Side of the square board, in cells. */
  const GridSize: int := 15

  datatype Position = Position(x: int, y: int)

  datatype Direction = Up | Down | Left | Right

  predicate InGrid(p: Position) {
    0 <= p.x < GridSize && 0 <= p.y < GridSize
  }

  function Abs(n: int): (r: nat)
    ensures r == n || r == -n
  {
    if n < 0 then -n else n
  }

  function Manhattan(a: Position, b: Position): nat {
    Abs(a.x - b.x) + Abs(a.y - b.y)
  }

  function Opposite(d: Direction): (r: Direction)
    ensures r != d
  {
    match d
    case Up => Down
    case Down => Up
    case Left => Right
    case Right => Left
  }

  /** The cell one step from `p` towards `d`. */
  function Step(p: Position, d: Direction): (q: Position)
    ensures Manhattan(p, q) == 1
    ensures (d == Up || d == Down) <==> q.x == p.x
  {
    match d
    case Up => Position(p.x, p.y - 1)
    case Down => Position(p.x, p.y + 1)
    case Left => Position(p.x - 1, p.y)
    case Right => Position(p.x + 1, p.y)
  }

  /** Stepping back the opposite way undoes a step. */
  lemma StepBack(p: Position, d: Direction)
    ensures Opposite(Opposite(d)) == d
    ensures Step(Step(p, d), Opposite(d)) == p
  {
  }
}
