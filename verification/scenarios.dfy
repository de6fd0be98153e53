/** Concrete runs of the game on a 20 x 20 board. */
module Scenarios {
  import opened Grid
  import opened Speed
  import opened Game
  import opened Input

  const Board := 20

  /** A fresh game: one cell at (10, 10) heading right, food at (15, 15), score 0, 200 ms. */
  lemma FreshGame(history: seq<nat>)
    ensures Init(history).state ==
      GameState([Cell(10, 10)], Right, Right, Right, Cell(15, 15), false, 0, 200, Ready, history)
  {
  }

  /** A restart, in any phase, gives the fresh game with the score history kept. */
  lemma RestartIsFreshGame(s: GameState)
    ensures Reset(s).state ==
      GameState([Cell(10, 10)], Right, Right, Right, Cell(15, 15), false, 0, 200, Ready, s.history)
  {
  }

  /** The speed curve at a few scores: it reaches its floor at 14 points. */
  lemma SpeedCurve()
    ensures SpeedFor(0) == 200 && SpeedFor(1) == 190 && SpeedFor(13) == 70
    ensures SpeedFor(14) == 60 && SpeedFor(20) == 60
  {
  }

  /** Up in the ready phase starts the game at 200 ms and takes the turn. */
  lemma FirstUpStartsAndTurns(history: seq<nat>)
    ensures var r := KeyPress(Init(history).state, ArrowUp);
      r.state.phase == Playing && r.state.nextDirection == Up && r.timer == Restart(200)
  {
  }

  /** Left in the ready phase starts the game, but the turn is refused: the snake
      starts heading right, and left is straight back. */
  lemma FirstLeftStartsButIsRefused(history: seq<nat>)
    ensures var r := KeyPress(Init(history).state, ArrowLeft);
      r.state.phase == Playing && r.state.nextDirection == Right && r.timer == Restart(200)
  {
  }

  /** A key other than an arrow does not start the game. */
  lemma OtherKeyDoesNotStart(history: seq<nat>)
    ensures KeyPress(Init(history).state, Other) == Outcome(Init(history).state, Keep)
  {
  }

  /** Moving right, Left and then Up before the next tick: Left is refused, Up is taken,
      and the tick moves the head up. */
  lemma LeftThenUpMovesUp(history: seq<nat>)
    ensures var s := KeyPress(Init(history).state, ArrowRight).state;
      var p := PressAll(s, [ArrowLeft, ArrowUp]);
      var r := Step(p, Board, []).state;
      p.nextDirection == Up && r.snake == [Cell(10, 9)] && r.lastDirection == Up
  {
    var s := KeyPress(Init(history).state, ArrowRight).state;
    assert [ArrowLeft, ArrowUp][..1] == [ArrowLeft];
    assert [ArrowLeft][..0] == [];
  }

  /** The first burst of a game: Left starts play but is refused, then Up is taken,
      and the first tick moves the head up. */
  lemma FirstBurstLeftThenUp(history: seq<nat>)
    ensures var p := PressAll(Init(history).state, [ArrowLeft, ArrowUp]);
      var r := Step(p, Board, []).state;
      p.phase == Playing && p.nextDirection == Up && r.snake == [Cell(10, 9)]
  {
    assert [ArrowLeft, ArrowUp][..1] == [ArrowLeft];
    assert [ArrowLeft][..0] == [];
  }

  /** Eating the first food: score 1, the body grows to two cells, the new food lands
      on the first free draw, and the timer restarts at 190 ms. */
  lemma FirstFoodSpeedsUp(history: seq<nat>)
    ensures var s := Init(history).state.(snake := [Cell(14, 15)], phase := Playing);
      var draws := [Cell(15, 15), Cell(3, 4)];
      assert draws[1] !in Grown(s);
      var r := Step(s, Board, draws);
      && r.state.score == 1
      && r.state.snake == [Cell(15, 15), Cell(14, 15)]
      && r.state.food == Cell(3, 4)
      && r.state.speed == 190
      && r.timer == Restart(190)
  {
  }

  /** Leaving the board on the left edge ends the game and records its score. */
  lemma LeftEdgeEndsGame(history: seq<nat>)
    ensures var s := Init(history).state.(snake := [Cell(0, 5)], nextDirection := Left,
                                         lastDirection := Up, direction := Up, score := 3, phase := Playing);
      var r := Step(s, Board, []);
      && r.state.phase == Over && r.state.gameOver
      && r.state.history == [3] + history
      && r.state.snake == [Cell(0, 5)]
      && r.timer == Stop
  {
  }

  /** Turning right into the cell the tail is about to leave ends the game. */
  lemma ChasingTheTailEndsGame(history: seq<nat>)
    ensures var s := Init(history).state.(snake := [Cell(1, 1), Cell(1, 2), Cell(2, 2), Cell(2, 1)],
                                         nextDirection := Right, lastDirection := Up, direction := Up,
                                         score := 3, speed := 170, food := Cell(5, 5), phase := Playing);
      Step(s, Board, []).state.phase == Over
  {
    var s := Init(history).state.(snake := [Cell(1, 1), Cell(1, 2), Cell(2, 2), Cell(2, 1)],
                                 nextDirection := Right, lastDirection := Up, direction := Up,
                                 score := 3, speed := 170, food := Cell(5, 5), phase := Playing);
    assert s.snake[3] == NextHead(s);
  }
}
