/** Facts about single ticks of `update`, and about a tick after a burst of key presses. */
module StepFacts {
  import opened Grid
  import opened Body
  import opened Food
  import opened Game
  import opened Input
  import opened Invariants

  /** The state `endGame` leaves after a crash: the pending direction was applied,
      the score went to the front of the history, and snake, food and score stayed. */
  function Crashed(s: GameState): GameState {
    s.(direction := s.nextDirection, lastDirection := s.nextDirection,
       gameOver := true, phase := Over, history := [s.score] + s.history)
  }

  /** Leaving the board ends the game. */
  lemma OutOfBoundsEndsGame(s: GameState, tileCount: int, draws: seq<Cell>)
    requires |s.snake| > 0 && DrawsInGrid(draws, tileCount)
    requires Ticking(s) && !InGrid(NextHead(s), tileCount)
    ensures Step(s, tileCount, draws) == Outcome(Crashed(s), Stop)
  {
  }

  /** Running into any segment after the head ends the game. */
  lemma SelfCollisionEndsGame(s: GameState, tileCount: int, draws: seq<Cell>)
    requires |s.snake| > 0 && DrawsInGrid(draws, tileCount)
    requires Ticking(s) && HitsBody(s.snake, NextHead(s))
    ensures Step(s, tileCount, draws) == Outcome(Crashed(s), Stop)
  {
  }

  /** The collision test runs against the body before the tail moves: heading into the
      cell the tail is about to leave still ends the game, although that tick would not
      have eaten in a well-formed state. */
  lemma MovingIntoTailEndsGame(s: GameState, tileCount: int, draws: seq<Cell>)
    requires |s.snake| >= 2 && DrawsInGrid(draws, tileCount)
    requires Ticking(s) && NextHead(s) == s.snake[|s.snake| - 1]
    ensures WellFormed(s, tileCount) ==> NextHead(s) != s.food
    ensures Step(s, tileCount, draws) == Outcome(Crashed(s), Stop)
  {
    assert HitsBody(s.snake, NextHead(s));
  }

  /** A tick that does not crash puts the new head in front and keeps the tail only
      when the head lands on the food. */
  lemma SafeStepMovesHead(s: GameState, tileCount: int, draws: seq<Cell>)
    requires |s.snake| > 0 && DrawsInGrid(draws, tileCount)
    requires Eats(s, tileCount) ==> HasFreeDraw(Grown(s), draws)
    requires Ticking(s) && !Crashes(s, tileCount)
    ensures var r := Step(s, tileCount, draws).state;
      && r.phase == Playing
      && r.history == s.history
      && (NextHead(s) == s.food ==> r.snake == [NextHead(s)] + s.snake)
      && (NextHead(s) != s.food ==> r.snake == [NextHead(s)] + s.snake[..|s.snake| - 1] && r.food == s.food)
  {
  }

  /** Of several keys pressed between two ticks, the tick applies the last accepted one,
      here the key at index `i`. This holds for the first burst of a game too, whose
      first arrow starts play. */
  lemma TickAppliesLastAcceptedKey(s: GameState, tileCount: int, keys: seq<Key>, i: nat, draws: seq<Cell>)
    requires s.phase != Over && !s.gameOver && |s.snake| > 0 && IsUnit(s.lastDirection)
    requires i < |keys| && Accepts(s.lastDirection, keys[i])
    requires forall j :: i < j < |keys| ==> !Accepts(s.lastDirection, keys[j])
    requires DrawsInGrid(draws, tileCount)
    requires Eats(PressAll(s, keys), tileCount) ==> HasFreeDraw(Grown(PressAll(s, keys)), draws)
    ensures var r := Step(PressAll(s, keys), tileCount, draws).state;
      && r.lastDirection == r.direction == Heading(keys[i])
      && (r.phase == Playing ==> r.snake[0] == Move(s.snake[0], Heading(keys[i])))
  {
    LastAcceptedKeyWins(s, keys);
  }

  /** When no key between two ticks is accepted, a tick in play keeps the direction
      it had; in the ready phase with no arrow pressed the tick does nothing. */
  lemma TickKeepsDirectionWithoutAcceptedKey(s: GameState, tileCount: int, keys: seq<Key>, draws: seq<Cell>)
    requires s.phase != Over && !s.gameOver && |s.snake| > 0 && IsUnit(s.lastDirection)
    requires forall j :: 0 <= j < |keys| ==> !Accepts(s.lastDirection, keys[j])
    requires DrawsInGrid(draws, tileCount)
    requires Eats(PressAll(s, keys), tileCount) ==> HasFreeDraw(Grown(PressAll(s, keys)), draws)
    ensures var p := PressAll(s, keys);
      var r := Step(p, tileCount, draws);
      && (p.phase == Playing ==> r.state.lastDirection == r.state.direction == s.nextDirection)
      && (p.phase == Playing && r.state.phase == Playing ==> r.state.snake[0] == Move(s.snake[0], s.nextDirection))
      && (p.phase != Playing ==> r == Outcome(s, Keep))
  {
    LastAcceptedKeyWins(s, keys);
  }
}
