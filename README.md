# Snake game-state engine

A Dafny model of the game logic of a single-screen mobile Snake game
(`App.tsx`). A snake moves across a 15×15 board, one cell per tick, in the
direction last chosen by a swipe. It eats randomly placed food to grow and
score, and the game ends when the head leaves the board or runs into the
body. Every 50 points the level rises, up to level 10, and the tick
interval shortens by 20 ms, never going below 50 ms.

Modules:

- `Geometry` (`geometry.dfy`): board cells, the four headings and the one-cell step.
- `Rules` (`rules.dfy`): the pure decisions of a tick and a swipe. These are
  the well-formed body, the collision test, the level-up test, the
  speed-up and the swipe classifier. The file also holds the lemmas that a
  move keeps the body well formed and that eating keeps level and speed on
  the difficulty curve.
- `Render` (`render.dfy`): rotations of the head, body and tail images, and
  the list of points the body is drawn through.
- `SnakeGame` (`game.dfy`): class `Game`, holding the component's state
  fields (`snake`, `food`, `direction`, `isGameOver`, `score`, `level`,
  `speed`, `startTouch`). Its methods are the tick, the reset, food
  placement and the two touch handlers. `Game.Valid()` is the invariant of
  every reachable state. It says the body is well formed: at least one
  segment, all on the board, pairwise distinct, consecutive ones adjacent.
  It also says the food is on the board, the score is a multiple of 10,
  `level == min(1 + score / 50, 10)` and
  `speed == max(200 - 20 * (level - 1), 50)`. The constructor and `Reset`
  establish it, and `Tick`, `TouchStart` and `TouchEnd` preserve it.

Behaviour of the code that is easy to misread:

- A tick tests collision against the whole pre-move body, the tail that
  is about to move away included. So moving the head onto the current
  tail cell ends the game.
- `handleTouchEnd` does not look at `isGameOver`, so a swipe during game
  over still turns the snake.
- A horizontal swipe is inverted: a swipe to the right selects LEFT. Only
  reversals on the vertical axis are blocked, and only against the heading
  held at the time of the swipe. A horizontal reversal is accepted.
  Once the snake has two or more segments, reversing the last move is
  fatal on the next tick (`Rules.ReversalIntoNeckCollides`). Two swipes between ticks can also
  reverse the vertical heading (UP, then LEFT, then DOWN), although a
  single swipe cannot (`Rules.TwoSwipesReverseVertically`).
- New food is any cell of the board, with no check that the snake is not
  on it.
- The level-up test is `score > 0 && (score + 10) % 50 == 0 && level < 10`,
  taken on the score before the food is counted.

## Model

| member | source | states |
|---|---|---|
| `Geometry.Step` | App.tsx:118-134 | the new head is at Manhattan distance 1 from the old one; it stays in the same column exactly for UP and DOWN |
| `Geometry.StepBack` | App.tsx:121-134 | a step in the opposite heading undoes a step, so the four moves are two pairs of inverses |
| `Rules.HitsSegment` | App.tsx:142 | the `some` test over the body is true exactly when the new head equals one of the segments |
| `Rules.Collides` | App.tsx:137-143 | a tick collides exactly when the new head is off the 15×15 board or on a segment of the pre-move body |
| `Rules.ReversalIntoNeckCollides` | App.tsx:137-148 | when the head reached its cell by moving `d` from the segment behind it, a step in the opposite heading collides, so reversing the last move ends the game |
| `Rules.MoveKeepsWellFormed` | App.tsx:151-166 | after a non-colliding move, both the grown body (`[head] + snake`) and the moved body (the tail popped) stay in bounds, distinct and adjacent |
| `Rules.LevelsUp` | App.tsx:158 | a level-up needs the level below 10 and a new score of at least 50 |
| `Rules.LevelsUpAtMilestones` | App.tsx:157-160 | for a score, level and speed on the difficulty curve, a food raises the level exactly when the new score is a multiple of 50 below 500 |
| `Rules.NextSpeed` | App.tsx:160 | the speed after a level-up is `speed - 20` when that is at least 50 and otherwise 50; it never drops below 50, and from a speed of at least 50 it never exceeds the previous speed |
| `Rules.EatKeepsDifficultyCurve` | App.tsx:153-160 | after one food, applying the level-up test and the speed-up keeps `level == min(1 + score/50, 10)` and `speed == max(200 - 20*(level-1), 50)`; the level stays in 1..10 and the speed does not increase |
| `Rules.SwipeDirection` | App.tsx:198-216 | a mostly horizontal swipe selects LEFT for `dx > 0` and RIGHT for `dx < 0`; otherwise `dy > 0` selects DOWN unless heading UP and `dy < 0` selects UP unless heading DOWN; ties are vertical; a zero swipe changes nothing; UP and DOWN are never reversed |
| `Rules.TwoSwipesReverseVertically` | App.tsx:202-216 | a vertical swipe alone cannot turn UP into DOWN, but a horizontal swipe followed by a vertical one before the next tick can |
| `Render.HeadRotation` | App.tsx:222-233 | the head angle is a quarter turn in -90..180 that turns a right-facing image to face the heading |
| `Render.BodyRotation` | App.tsx:236-247 | the body angle is a quarter turn: 90 on a vertical straight, 0 on a horizontal straight, and 0 on every corner entered from above or below |
| `Render.SidewaysCornerRotationsDiffer` | App.tsx:241-244 | the four corners entered from the side of a cell get four different angles |
| `Render.TailRotation` | App.tsx:249-254 | the tail angle is a quarter turn in 0..270; for adjacent cells it faces from the tail to the segment before it |
| `Render.CalculateSnakePoints` | App.tsx:267-286 | fewer than 2 segments give no points; otherwise there are exactly `2n-2` points; point `2i` is segment `i` for `i <= n-2`, and point `2i+1` is the midpoint of segments `i` and `i+1` for `i < n-2`; the first point is the head and the last is the tail |
| `SnakeGame.Game.constructor` | App.tsx:66-74 | the initial state: snake `[(5,5)]`, food `(10,10)`, heading RIGHT, running, score 0, level 1, speed 200, no touch; it satisfies `Valid()` |
| `SnakeGame.Game.GenerateFood` | App.tsx:97-104 | the new food is some cell of the 15×15 board, chosen without regard to the snake |
| `SnakeGame.Game.Tick` | App.tsx:117-169 | no-op while game over; on collision: game over, a game-over sound, everything else unchanged; on food: grows by exactly one, score +10, food back on the board, level and speed raised exactly when the level-up test holds, eat and level-up sounds; otherwise the head is added and the tail dropped (same length); `Valid()` preserved; level never decreases or exceeds 10; speed never increases or drops below 50 |
| `SnakeGame.Game.Reset` | App.tsx:172-180 | from any state: snake `[(5,5)]`, RIGHT, running, score 0, level 1, speed 200, food on the board, `Valid()`; every field but the food and the pending touch is the same on every reset |
| `SnakeGame.Game.TouchStart` | App.tsx:183-188 | remembers the touch-down point and keeps `Valid()` |
| `SnakeGame.Game.TouchEnd` | App.tsx:190-219 | without a touch-down point nothing changes; otherwise the heading becomes `SwipeDirection` of the swipe and the point is forgotten; UP and DOWN are never reversed; `Valid()` is kept |

## Left out

- The Android activity (`MainActivity.kt`) is left out. It holds platform lifecycle code and a routine that installs a bundled package, and none of it is game logic.
- Timers are left out. The `setInterval` loop and its re-subscription (App.tsx:107-114) appear only as "`Tick` does nothing while the game is over". The moment a new speed takes effect is not modelled.
- The wave and `Animated` animation loops (App.tsx:256-264, 288-308) are left out.
- The `snakePoints` state (App.tsx:77) and the effect that refills it from `calculateSnakePoints` whenever the snake changes (App.tsx:310-313) are rendering and are left out; the point computation itself is modelled.
- Sound loading and playback (App.tsx:36-52, 80-94) are left out. `Tick` returns the list of sounds it asks for. Whether they load or play is not modelled.
- The fruit image choice (App.tsx:68, 103) is left out.
- Screen sizes (`Dimensions`, `CELL_SIZE`), JSX rendering and styles (App.tsx:6-7, 9-34, 315-496) are left out.
- React's batched, stale-closure state updates are left out. One tick is one sequential update of the fields.
- SnakeGame.Game.GenerateFood: random placement is modelled as a nondeterministic choice of a cell, with no distribution.
- Touch coordinates are `real` numbers. Floating-point rounding of `pageX`/`pageY` is not modelled.
