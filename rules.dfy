/** The pure decisions behind one game tick and one swipe: where the head
    goes, whether it collides, how score, level and speed escalate, and
    which heading a swipe selects. */
module Rules {
  import opened Geometry

  const ScorePerFood: int := 10
  const LevelUpEvery: int := 50
  const MaxLevel: int := 10
  const InitialSpeed: int := 200
  const SpeedStep: int := 20
  const MinSpeed: int := 50

  /** A snake body, head first: at least one segment, every segment on the
      board, no two segments on the same cell, and consecutive segments
      side by side. */
  predicate WellFormed(s: seq<Position>) {
    && |s| >= 1
    && (forall i :: 0 <= i < |s| ==> InGrid(s[i]))
    && (forall i, j :: 0 <= i < j < |s| ==> s[i] != s[j])
    && (forall i :: 0 <= i < |s| - 1 ==> Manhattan(s[i], s[i + 1]) == 1)
  }

  /** Whether some segment of `s` has the same coordinates as `p`. */
  function HitsSegment(s: seq<Position>, p: Position): (r: bool)
    ensures r <==> p in s
  {
    if s == [] then false
    else (s[0].x == p.x && s[0].y == p.y) || HitsSegment(s[1..], p)
  }

  /** The collision test of a tick: the new head leaves the board, or lands
      on any segment of the snake as it was before the move (the tail that
      is about to move away included). */
  function Collides(s: seq<Position>, newHead: Position): (r: bool)
    ensures r <==> !InGrid(newHead) || newHead in s
  {
    newHead.x < 0 || newHead.x >= GridSize || newHead.y < 0 || newHead.y >= GridSize
    || HitsSegment(s, newHead)
  }

  /** Reversing the last move ends the game: when the head reached its cell
      by moving `d` from the segment behind it, a step the opposite way lands
      on that segment. */
  lemma ReversalIntoNeckCollides(s: seq<Position>, d: Direction)
    requires |s| >= 2 && s[0] == Step(s[1], d)
    ensures Collides(s, Step(s[0], Opposite(d)))
  {
    StepBack(s[1], d);
  }

  /** A successful move keeps the body well formed, whether the tail stays
      (the snake ate) or is dropped. */
  lemma MoveKeepsWellFormed(s: seq<Position>, d: Direction)
    requires WellFormed(s)
    requires !Collides(s, Step(s[0], d))
    ensures WellFormed([Step(s[0], d)] + s)
    ensures WellFormed([Step(s[0], d)] + s[..|s| - 1])
  {
  }

  /** The level-up test, checked against the score before the food is counted. */
  function LevelsUp(score: int, level: int): (up: bool)
    ensures up ==> level + 1 <= MaxLevel
    ensures up ==> score + ScorePerFood >= LevelUpEvery
  {
    score > 0 && (score + ScorePerFood) % LevelUpEvery == 0 && level < MaxLevel
  }

  /** The tick interval after a level-up. */
  function NextSpeed(speed: int): (r: int)
    ensures r >= MinSpeed
    ensures speed >= MinSpeed ==> r <= speed
    ensures speed - SpeedStep >= MinSpeed ==> r == speed - SpeedStep
    ensures speed - SpeedStep < MinSpeed ==> r == MinSpeed
  {
    if speed - SpeedStep > MinSpeed then speed - SpeedStep else MinSpeed
  }

  /** The level a game has reached after scoring `score`. */
  function LevelFor(score: int): int {
    if 1 + score / LevelUpEvery < MaxLevel then 1 + score / LevelUpEvery else MaxLevel
  }

  /** The tick interval belonging to `level`. */
  function SpeedFor(level: int): int {
    if InitialSpeed - SpeedStep * (level - 1) > MinSpeed
    then InitialSpeed - SpeedStep * (level - 1) else MinSpeed
  }

  /** Score, level and speed agree with the difficulty curve. */
  predicate OnCurve(score: int, level: int, speed: int) {
    && score >= 0 && score % ScorePerFood == 0
    && level == LevelFor(score)
    && speed == SpeedFor(level)
  }

  /** Eating once keeps the difficulty curve: if level and speed match the
      score before the food, they match it after, with the level-up rule
      applied to level and speed. */
  lemma EatKeepsDifficultyCurve(score: int, level: int, speed: int)
    requires OnCurve(score, level, speed)
    ensures var up := LevelsUp(score, level);
            var level' := if up then level + 1 else level;
            var speed' := if up then NextSpeed(speed) else speed;
            && OnCurve(score + ScorePerFood, level', speed')
            && 1 <= level' <= MaxLevel
            && MinSpeed <= speed' <= speed
  {
  }

  /** On the difficulty curve, a food raises the level exactly when the new
      score is a multiple of 50 below 500; the `score > 0` part of the test
      never decides anything there. */
  lemma LevelsUpAtMilestones(score: int, level: int, speed: int)
    requires OnCurve(score, level, speed)
    ensures LevelsUp(score, level) <==>
            (score + ScorePerFood) % LevelUpEvery == 0 && score + ScorePerFood < MaxLevel * LevelUpEvery
  {
  }

  function AbsReal(v: real): (r: real)
    ensures r >= 0.0 && (r == v || r == -v)
  {
    if v < 0.0 then -v else v
  }

  /** The heading after a swipe by (dx, dy) in screen coordinates. A mostly
      horizontal swipe picks a horizontal heading (inverted: a swipe to the
      right selects Left); otherwise the swipe is vertical, and it is ignored
      when it would reverse the snake on the vertical axis. */
  function SwipeDirection(current: Direction, dx: real, dy: real): (r: Direction)
    ensures AbsReal(dx) > AbsReal(dy) ==> r == (if dx > 0.0 then Left else Right)
    ensures AbsReal(dx) <= AbsReal(dy) && dy > 0.0 ==> r == (if current == Up then Up else Down)
    ensures AbsReal(dx) <= AbsReal(dy) && dy < 0.0 ==> r == (if current == Down then Down else Up)
    ensures dx == 0.0 && dy == 0.0 ==> r == current
    ensures (current == Up || current == Down) ==> r != Opposite(current)
  {
    if AbsReal(dx) > AbsReal(dy) then
      if dx > 0.0 && current != Left then Left
      else if dx < 0.0 && current != Right then Right
      else current
    else
      if dy > 0.0 && current != Up then Down
      else if dy < 0.0 && current != Down then Up
      else current
  }

  /** A single swipe never reverses Up into Down, but two swipes before the
      next tick can: a horizontal swipe first, then the vertical one. */
  lemma TwoSwipesReverseVertically()
    ensures forall dx, dy :: SwipeDirection(Up, dx, dy) != Down
    ensures SwipeDirection(SwipeDirection(Up, 1.0, 0.0), 0.0, 1.0) == Down
  {
  }
}
