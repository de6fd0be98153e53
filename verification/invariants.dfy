/** The invariant every reachable game state keeps, and its preservation by every event. */
module Invariants {
  import opened Grid
  import opened Speed
  import opened Body
  import opened Food
  import opened Game
  import opened Input

  /** What holds of every state the game can reach on a `tileCount` board. */
  predicate WellFormed(s: GameState, tileCount: int) {
    && |s.snake| == s.score + 1
    && AllInGrid(s.snake, tileCount)
    && NoDup(s.snake)
    && InGrid(s.food, tileCount)
    && s.food !in s.snake
    && IsUnit(s.nextDirection)
    && IsUnit(s.lastDirection)
    && s.direction == s.lastDirection
    && s.nextDirection != Opposite(s.lastDirection)
    && s.speed == SpeedFor(s.score)
    && (s.gameOver <==> s.phase == Over)
  }

  /** The start state is well formed once the board holds the start cell and the first food. */
  lemma InitWellFormed(tileCount: int, history: seq<nat>)
    requires tileCount > 15
    ensures WellFormed(Init(history).state, tileCount)
  {
  }

  /** A tick keeps the body on the board and free of repeats, the food off the body,
      one segment per point plus the head, and the speed on its curve. */
  lemma StepPreservesWellFormed(s: GameState, tileCount: int, draws: seq<Cell>)
    requires WellFormed(s, tileCount)
    requires DrawsInGrid(draws, tileCount)
    requires Eats(s, tileCount) ==> HasFreeDraw(Grown(s), draws)
    ensures WellFormed(Step(s, tileCount, draws).state, tileCount)
  {
    if Ticking(s) && !Crashes(s, tileCount) {
      var head := NextHead(s);
      assert head != s.snake[0];
      assert head !in s.snake;
      PrependKeepsNoDup(head, s.snake);
      var grown := Grown(s);
      if head != s.food {
        DropTailKeepsNoDup(grown);
        var r := Step(s, tileCount, draws).state;
        assert r.snake == grown[..|grown| - 1];
        assert forall i :: 0 <= i < |r.snake| ==> r.snake[i] == grown[i];
        assert s.food !in grown;
      }
    }
  }

  /** A key event keeps the state well formed: in particular an accepted turn never
      points straight back. */
  lemma KeyPressPreservesWellFormed(s: GameState, tileCount: int, k: Key)
    requires WellFormed(s, tileCount)
    ensures WellFormed(KeyPress(s, k).state, tileCount)
  {
  }

  /** Any event the game reacts to. `draws` are the random cells a tick's `placeFood` would draw. */
  datatype Event = Tick(draws: seq<Cell>) | Press(key: Key) | RestartClicked

  /** The event can be applied: a tick on a non-empty snake whose draws satisfy `placeFood`. */
  predicate EventOk(s: GameState, tileCount: int, e: Event) {
    e.Tick? ==>
      && |s.snake| > 0
      && DrawsInGrid(e.draws, tileCount)
      && (Eats(s, tileCount) ==> HasFreeDraw(Grown(s), e.draws))
  }

  function Apply(s: GameState, tileCount: int, e: Event): (r: Outcome)
    requires EventOk(s, tileCount, e)
    ensures r.state.phase == s.phase || r.state.phase == Ready ||
            (s.phase == Ready && r.state.phase == Playing) ||
            (s.phase == Playing && r.state.phase == Over)
    ensures r.state.phase == Ready ==> s.phase == Ready || e.RestartClicked?
  {
    match e
    case Tick(draws) => Step(s, tileCount, draws)
    case Press(k) => KeyPress(s, k)
    case RestartClicked => Reset(s)
  }

  /** Every single event keeps the state well formed. */
  lemma ApplyPreservesWellFormed(s: GameState, tileCount: int, e: Event)
    requires tileCount > 15
    requires WellFormed(s, tileCount)
    requires EventOk(s, tileCount, e)
    ensures WellFormed(Apply(s, tileCount, e).state, tileCount)
  {
    match e
    case Tick(draws) => StepPreservesWellFormed(s, tileCount, draws);
    case Press(k) => KeyPressPreservesWellFormed(s, tileCount, k);
    case RestartClicked => InitWellFormed(tileCount, s.history);
  }

  /** Every event of the sequence can be applied in turn. */
  predicate ValidRun(s: GameState, tileCount: int, events: seq<Event>)
    decreases |events|
  {
    |events| == 0 ||
    (EventOk(s, tileCount, events[0]) &&
     ValidRun(Apply(s, tileCount, events[0]).state, tileCount, events[1..]))
  }

  /** The state after the events, in order. */
  function Run(s: GameState, tileCount: int, events: seq<Event>): GameState
    requires ValidRun(s, tileCount, events)
    decreases |events|
  {
    if |events| == 0 then s
    else Run(Apply(s, tileCount, events[0]).state, tileCount, events[1..])
  }

  /** Every state reachable from a well-formed one is well formed. */
  lemma {:induction false} RunPreservesWellFormed(s: GameState, tileCount: int, events: seq<Event>)
    requires tileCount > 15
    requires WellFormed(s, tileCount)
    requires ValidRun(s, tileCount, events)
    ensures WellFormed(Run(s, tileCount, events), tileCount)
    decreases |events|
  {
    if |events| > 0 {
      var next := Apply(s, tileCount, events[0]).state;
      ApplyPreservesWellFormed(s, tileCount, events[0]);
      RunPreservesWellFormed(next, tileCount, events[1..]);
    }
  }

  /** Every state reachable from a start state is well formed; hence the snake is
      on the board, never overlaps itself and never covers the food. */
  lemma ReachableWellFormed(tileCount: int, history: seq<nat>, events: seq<Event>)
    requires tileCount > 15
    requires ValidRun(Init(history).state, tileCount, events)
    ensures var r := Run(Init(history).state, tileCount, events);
      WellFormed(r, tileCount) && NoDup(r.snake) && AllInGrid(r.snake, tileCount) && r.food !in r.snake
  {
    InitWellFormed(tileCount, history);
    RunPreservesWellFormed(Init(history).state, tileCount, events);
  }
}
