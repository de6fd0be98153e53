/** The game state and the tick step of `update`, with `initGame` and `endGame`. */
module Game {
  import opened Grid
  import opened Speed
  import opened Body
  import opened Food

  /** `gameState`: waiting for the first arrow key, ticking, or finished. */
  datatype Phase = Ready | Playing | Over

  /** What an operation asks of the periodic tick timer. */
  datatype Timer =
    | Keep                      // leave the timer as it is
    | Stop                      // `clearInterval`
    | Restart(interval: int)    // `clearInterval`, then `setInterval(gameLoop, interval)`

  /** The module-level variables of the game. `history` is `scoreHistory`, most recent first. */
  datatype GameState = GameState(
    snake: seq<Cell>,
    direction: Dir,
    nextDirection: Dir,
    lastDirection: Dir,
    food: Cell,
    gameOver: bool,
    score: nat,
    speed: int,
    phase: Phase,
    history: seq<nat>)

  /** A new state together with the timer request it makes. */
  datatype Outcome = Outcome(state: GameState, timer: Timer)

  const StartCell := Cell(10, 10)
  const StartFood := Cell(15, 15)

  /** `initGame`: a fresh one-cell snake heading right; the score history is carried over. */
  function Init(history: seq<nat>): (r: Outcome)
    ensures r.state.phase == Ready && !r.state.gameOver
    ensures r.state.history == history
    ensures |r.state.snake| == 1 && r.state.score == 0
    ensures r.state.food !in r.state.snake
    ensures r.state.speed == SpeedFor(r.state.score) == InitialSpeed
    ensures r.state.direction == r.state.nextDirection == r.state.lastDirection
    ensures r.timer == Stop
  {
    Outcome(GameState([StartCell], Right, Right, Right, StartFood, false, 0, InitialSpeed, Ready, history), Stop)
  }

  /** `restartGame`: start over, at any phase, keeping the score history. Nothing of the
      finished game survives: the snake, food, score, speed and directions are the start values. */
  function Reset(s: GameState): (r: Outcome)
    ensures r.state.phase == Ready && !r.state.gameOver
    ensures r.state.history == s.history
    ensures r.state.snake == [StartCell] && r.state.food == StartFood
    ensures r.state.score == 0 && r.state.speed == InitialSpeed
    ensures r.state.direction == r.state.nextDirection == r.state.lastDirection == Right
    ensures r.timer == Stop
  {
    Init(s.history)
  }

  /** `endGame`: the game is over and its score goes to the front of the history. */
  function EndGame(s: GameState): (r: Outcome)
    ensures r.state.phase == Over && r.state.gameOver
    ensures |r.state.history| == |s.history| + 1
    ensures r.state.history[0] == s.score && r.state.history[1..] == s.history
    ensures r.state.(gameOver := s.gameOver, phase := s.phase, history := s.history) == s
    ensures r.timer == Stop
  {
    Outcome(s.(gameOver := true, phase := Over, history := [s.score] + s.history), Stop)
  }

  /** `update` does something only in this case. */
  predicate Ticking(s: GameState) {
    !s.gameOver && s.phase == Playing
  }

  /** The cell the head moves into on the next tick. */
  function NextHead(s: GameState): Cell
    requires |s.snake| > 0
  {
    Move(s.snake[0], s.nextDirection)
  }

  /** The body with the new head in front and the tail still in place. */
  function Grown(s: GameState): seq<Cell>
    requires |s.snake| > 0
  {
    [NextHead(s)] + s.snake
  }

  /** The next tick ends the game: the head leaves the board or runs into the body. */
  predicate Crashes(s: GameState, tileCount: int)
    requires |s.snake| > 0
  {
    !InGrid(NextHead(s), tileCount) || HitsBody(s.snake, NextHead(s))
  }

  /** The next tick moves the head onto the food. */
  predicate Eats(s: GameState, tileCount: int)
    requires |s.snake| > 0
  {
    Ticking(s) && !Crashes(s, tileCount) && NextHead(s) == s.food
  }

  /** `update`, one tick of the game loop. `draws` stands for the random cells `placeFood`
      would draw, in order; when the tick eats, one of them must be free. */
  function Step(s: GameState, tileCount: int, draws: seq<Cell>): (r: Outcome)
    requires |s.snake| > 0
    requires DrawsInGrid(draws, tileCount)
    requires Eats(s, tileCount) ==> HasFreeDraw(Grown(s), draws)
    ensures !Ticking(s) ==> r == Outcome(s, Keep)
    ensures r.state.phase == s.phase || (s.phase == Playing && r.state.phase == Over)
    ensures Ticking(s) ==> r.state.direction == r.state.lastDirection == s.nextDirection
    ensures r.state.nextDirection == s.nextDirection
    ensures r.state.score == s.score + (if Eats(s, tileCount) then 1 else 0)
    ensures |r.state.snake| == |s.snake| + (if Eats(s, tileCount) then 1 else 0)
    ensures |r.state.snake| > 0 && r.state.snake[0] == (if Ticking(s) && !Crashes(s, tileCount) then NextHead(s) else s.snake[0])
    ensures r.state.phase == Over ==> r.state.snake == s.snake && r.state.food == s.food
    ensures r.state.history == (if Ticking(s) && Crashes(s, tileCount) then [s.score] + s.history else s.history)
    ensures r.timer == Stop <==> Ticking(s) && Crashes(s, tileCount)
    ensures r.timer.Restart? ==> Eats(s, tileCount) && r.timer.interval == r.state.speed != s.speed
    ensures Eats(s, tileCount) ==> r.state.speed == SpeedFor(r.state.score)
    ensures Eats(s, tileCount) ==> (r.timer.Restart? <==> r.state.speed != s.speed)
    ensures Eats(s, tileCount) ==> InGrid(r.state.food, tileCount) && r.state.food !in r.state.snake
  {
    if !Ticking(s) then Outcome(s, Keep)
    else
      var turned := s.(direction := s.nextDirection, lastDirection := s.nextDirection);
      var head := Move(s.snake[0], turned.direction);
      if !InGrid(head, tileCount) then EndGame(turned)
      else if HitsBody(s.snake, head) then EndGame(turned)
      else
        var grown := [head] + s.snake;
        if head == s.food then
          var score := s.score + 1;
          var speed := SpeedFor(score);
          var food := PlaceFood(tileCount, grown, draws);
          Outcome(turned.(snake := grown, food := food, score := score, speed := speed),
                  if speed != s.speed then Restart(speed) else Keep)
        else
          Outcome(turned.(snake := grown[..|grown| - 1]), Keep)
  }
}
