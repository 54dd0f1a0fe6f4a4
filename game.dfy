/** The game-state engine: the snake, the food, the heading, the running or
    game-over flag, score, level and tick interval, advanced one tick at a
    time, restarted by a reset and steered by swipes. */
module SnakeGame {
  import opened Geometry
  import opened Rules

  datatype Option<T> = None | Some(value: T)

  /** Where a touch went down, in screen coordinates. */
  datatype Touch = Touch(x: real, y: real)

  /** The sound effects a tick asks for. */
  datatype Sound = EatSound | GameOverSound | LevelUpSound

  const StartCell: Position := Position(5, 5)

  class Game {
    var snake: seq<Position>
    var food: Position
    var direction: Direction
    var isGameOver: bool
    var score: int
    var level: int
    var speed: int
    var startTouch: Option<Touch>

    /** The state every reachable game is in: a well-formed body, food on
        the board, a score made of whole foods, and level and speed on the
        difficulty curve of that score. */
    ghost predicate Valid()
      reads this
    {
      && WellFormed(snake)
      && InGrid(food)
      && OnCurve(score, level, speed)
    }

    /** The state the game starts in. */
    constructor ()
      ensures Valid()
      ensures snake == [StartCell] && food == Position(10, 10) && direction == Right
      ensures !isGameOver && score == 0 && level == 1 && speed == InitialSpeed
      ensures startTouch == None
    {
      snake := [StartCell];
      food := Position(10, 10);
      direction := Right;
      isGameOver := false;
      score := 0;
      level := 1;
      speed := InitialSpeed;
      startTouch := None;
    }

    /** Puts the food on a cell of the board chosen at random; the cell may
        lie under the snake. */
    method GenerateFood()
      modifies this`food
      ensures InGrid(food)
    {
      assert 0 <= 0 < GridSize;
      var x :| 0 <= x < GridSize;
      var y :| 0 <= y < GridSize;
      food := Position(x, y);
    }

    /** One step of the game loop. While the game is over nothing happens.
        Otherwise the head moves one cell in `direction`; leaving the board or
        touching the pre-move body ends the game and freezes everything else;
        landing on the food grows the snake, adds to the score, places new
        food and may raise the level and shorten the interval; any other move
        drops the tail. */
    method Tick() returns (sounds: seq<Sound>)
      requires Valid()
      modifies this
      ensures Valid()
      ensures direction == old(direction) && startTouch == old(startTouch)
      ensures old(isGameOver) ==> unchanged(this) && sounds == []
      ensures !old(isGameOver) && Collides(old(snake), Step(old(snake)[0], old(direction))) ==>
        && isGameOver && sounds == [GameOverSound]
        && snake == old(snake) && food == old(food)
        && score == old(score) && level == old(level) && speed == old(speed)
      ensures !old(isGameOver) && !Collides(old(snake), Step(old(snake)[0], old(direction))) ==>
        !isGameOver && snake[0] == Step(old(snake)[0], old(direction))
      ensures !old(isGameOver) && !Collides(old(snake), Step(old(snake)[0], old(direction)))
              && Step(old(snake)[0], old(direction)) == old(food) ==>
        && snake == [old(food)] + old(snake)
        && score == old(score) + ScorePerFood
        && level == (if LevelsUp(old(score), old(level)) then old(level) + 1 else old(level))
        && speed == (if LevelsUp(old(score), old(level)) then NextSpeed(old(speed)) else old(speed))
        && sounds == [EatSound] + (if LevelsUp(old(score), old(level)) then [LevelUpSound] else [])
        && InGrid(food)
      ensures !old(isGameOver) && !Collides(old(snake), Step(old(snake)[0], old(direction)))
              && Step(old(snake)[0], old(direction)) != old(food) ==>
        && snake == [Step(old(snake)[0], old(direction))] + old(snake)[..|old(snake)| - 1]
        && food == old(food) && sounds == []
        && score == old(score) && level == old(level) && speed == old(speed)
      ensures old(level) <= level <= MaxLevel
      ensures MinSpeed <= speed <= old(speed)
    {
      if isGameOver {
        return [];
      }
      var head := snake[0];
      var newHead := Step(head, direction);
      if Collides(snake, newHead) {
        isGameOver := true;
        return [GameOverSound];
      }
      MoveKeepsWellFormed(snake, direction);
      var newSnake := [newHead] + snake;
      if newHead == food {
        EatKeepsDifficultyCurve(score, level, speed);
        var up := LevelsUp(score, level);
        score := score + ScorePerFood;
        GenerateFood();
        sounds := [EatSound];
        if up {
          level := level + 1;
          speed := NextSpeed(speed);
          sounds := sounds + [LevelUpSound];
        }
      } else {
        assert newSnake[..|newSnake| - 1] == [newHead] + snake[..|snake| - 1];
        newSnake := newSnake[..|newSnake| - 1];
        sounds := [];
      }
      snake := newSnake;
    }

    /** Starts a new game: one segment at the start cell heading right,
        running, no score, first level, initial interval, fresh food. */
    method Reset()
      modifies this
      ensures Valid()
      ensures snake == [StartCell] && direction == Right && !isGameOver
      ensures score == 0 && level == 1 && speed == InitialSpeed
      ensures InGrid(food) && startTouch == old(startTouch)
    {
      snake := [StartCell];
      direction := Right;
      isGameOver := false;
      score := 0;
      level := 1;
      speed := InitialSpeed;
      GenerateFood();
    }

    /** Remembers where a touch went down. */
    method TouchStart(x: real, y: real)
      requires Valid()
      modifies this`startTouch
      ensures Valid()
      ensures startTouch == Some(Touch(x, y))
    {
      startTouch := Some(Touch(x, y));
    }

    /** Ends a touch: without a remembered start nothing happens; otherwise
        the swipe from the start to (x, y) may change the heading, and the
        start is forgotten. */
    method TouchEnd(x: real, y: real)
      requires Valid()
      modifies this`direction, this`startTouch
      ensures Valid()
      ensures old(startTouch) == None ==> direction == old(direction) && startTouch == None
      ensures old(startTouch).Some? ==>
        && direction == SwipeDirection(old(direction), x - old(startTouch).value.x, y - old(startTouch).value.y)
        && startTouch == None
      ensures (old(direction) == Up || old(direction) == Down) ==> direction != Opposite(old(direction))
    {
      if startTouch == None {
        return;
      }
      var dx := x - startTouch.value.x;
      var dy := y - startTouch.value.y;
      // The branches mirror App.tsx:202-216 one by one; `SwipeDirection`
      // is the specification they are proved against.
      if AbsReal(dx) > AbsReal(dy) {
        if dx > 0.0 && direction != Left {
          direction := Left;
        } else if dx < 0.0 && direction != Right {
          direction := Right;
        }
      } else {
        if dy > 0.0 && direction != Up {
          direction := Down;
        } else if dy < 0.0 && direction != Down {
          direction := Up;
        }
      }
      startTouch := None;
    }
  }
}
