# Snake game state machine

A Dafny model of the game logic of a browser snake game (`snake.js`). The game keeps
its state in module-level variables: the snake body (head first), the applied,
pending and last-applied directions, the food cell, the score, the tick interval
(`speed`), the phase `'ready' | 'playing' | 'over'`, a `gameOver` flag and the score
history. A periodic timer calls `update` once per tick; a keydown handler starts
the game and steers the snake; `initGame` (also run by the restart button) resets
everything except the history.

The model is functional: `Game.GameState` is an immutable record and each
operation is a pure function returning the next state together with the request it
makes of the tick timer (`Keep`, `Stop`, or `Restart(interval)`).

- `grid.dfy` (`Grid`): cells, the four unit directions, `Move`, `Opposite`, `InGrid`.
- `speed.dfy` (`Speed`): the interval curve `max(60, 200 - 10 * score)`.
- `body.dfy` (`Body`): no repeated cells, the collision scan of `update`.
- `food.dfy` (`Food`): the retry loop of `placeFood`, driven by a given sequence of
  random draws.
- `game.dfy` (`Game`): the state, `initGame`, restart, `endGame` and `update`.
- `input.dfy` (`Input`): the keydown handler and a burst of keys between two ticks.
- `invariants.dfy` (`Invariants`): the invariant of every reachable state and its
  preservation by ticks, keys and restarts, over any run of events.
- `step_facts.dfy` (`StepFacts`): the crash, tail and movement rules of one tick.
- `scenarios.dfy` (`Scenarios`): concrete runs on a 20 x 20 board.

The board side `tileCount` is a parameter. The state invariant
(`Invariants.WellFormed`) says: the body has `score + 1` cells, all on the board and
pairwise distinct; the food is on the board and off the body; the pending and last
directions are unit directions and the pending one is never straight back; the
applied direction equals the last one; the speed is `SpeedFor(score)`; and
`gameOver` holds exactly in the over phase.

Two points of the code that the model keeps as written:
- Restart works in every phase: `restartGame` (snake.js:157-162) calls `initGame`
  without checking the phase, so `Game.Reset` applies in every phase.
- The collision loop starts at segment 1 (snake.js:70). A unit move never lands on
  the old head, so this is the same as checking the whole body. The tail is still in
  place when the loop runs, so moving into the cell the tail is about to leave ends
  the game.

## Model

| member | source | states |
|---|---|---|
| Grid.Move | snake.js:65 | moving along a unit direction always leaves the cell |
| Grid.Opposite | snake.js:136-149 | the direction straight back, against which the anti-reversal rule tests a key: for a unit direction it is a different unit direction |
| Grid.MoveThenBack | snake.js:65 | the opposite direction undoes a move: stepping along a direction and back along its opposite returns to the start cell |
| Speed.SpeedFor | snake.js:80 | the interval lies in [60, 200], is either the floor or 200 - 10 * score, and is at the floor exactly from score 14 |
| Speed.SpeedNonIncreasing | snake.js:78-80 | a higher score never gives a longer interval; it is strictly shorter exactly when the lower score is below 14 |
| Speed.SpeedStepsDown | snake.js:78-80 | each point below 14 takes exactly 10 ms off; from 14 on the interval stays put |
| Body.ScanBody | snake.js:70-75 | the loop over segments 1.. reports a hit exactly when the new head equals a cell of the body after the head, tail included |
| Body.PrependKeepsNoDup | snake.js:76 | putting a cell not in the body in front keeps the body free of repeats |
| Body.DropTailKeepsNoDup | snake.js:87 | dropping the tail keeps the body free of repeats and adds no cell |
| Food.FirstFreeIndex | snake.js:93-101 | the retry loop stops at the first draw not on the snake; every earlier draw was on it |
| Food.PlaceFood | snake.js:91-103 | the placed food is on the board, on no snake cell, and one of the draws |
| Food.FullBoardHasNoFreeDraw | snake.js:93-101 | when the body covers every cell of the board, no on-board draw is free, so the retry loop never stops |
| Game.Init | snake.js:14-27 | a fresh game is in the ready phase, not over, score 0 with a one-cell snake off the food, speed 200 on the curve, the three directions equal, the history kept and the timer stopped |
| Game.Reset | snake.js:157-162 | restarting from any phase re-runs `initGame` (snake.js:15-24): ready, not over, the one-cell start snake, the start food, score 0, speed 200, all three directions right, the history kept and the timer stopped |
| Game.EndGame | snake.js:105-109 | the game is over, the score is prepended to the history, nothing else changes, and the timer stops |
| Game.Step | snake.js:60-89 | outside play nothing changes; phases only go playing to over; the pending direction is applied; the score and the length grow by one exactly when the head reaches the food; a crash keeps snake and food, prepends the score and stops the timer; on eating the speed follows the curve, the timer restarts exactly when the speed changed, and the new food is on the board off the new body |
| Input.Heading | snake.js:136-148 | each arrow key asks for a unit direction |
| Input.Turn | snake.js:136-149 | for a unit last direction the per-key component tests take a key exactly when it is not the opposite of the last direction, setting its heading; a refused key or a non-arrow leaves the pending direction unchanged |
| Input.KeyPress | snake.js:126-150 | a key changes at most the phase and the pending direction; an arrow in ready starts play and the timer at the current speed; keys in over are ignored; a changed pending direction is the heading of an accepted key, and an accepted key while playing always sets it |
| Input.PressAll | snake.js:126-150 | a burst of keys changes at most the phase and the pending direction, and never leaves the over phase |
| Input.LastAcceptedKeyWins | snake.js:128-149 | before the game is over, a burst of keys ends in play exactly when play had started or the burst holds an arrow; the last accepted key sets the pending direction, including the arrow that starts play; with none accepted it is unchanged |
| Input.KeysIgnoredWhenOver | snake.js:134 | in the over phase any sequence of keys leaves the state as it is |
| Invariants.InitWellFormed | snake.js:14-23 | on a board larger than 15 cells the start state satisfies the invariant |
| Invariants.StepPreservesWellFormed | snake.js:60-89 | a tick keeps the body on the board and free of repeats, the food off it, the length at score + 1 and the speed on its curve |
| Invariants.KeyPressPreservesWellFormed | snake.js:126-150 | a key keeps the invariant, in particular the pending direction is never straight back |
| Invariants.Apply | snake.js:126-164 | every event moves the phase only ready to playing, playing to over, or back to ready by a restart |
| Invariants.ApplyPreservesWellFormed | snake.js:126-164 | ticks, keys and restarts each keep the invariant |
| Invariants.RunPreservesWellFormed | snake.js:60-164 | every state reached from a well-formed one by a run of events is well formed |
| Invariants.ReachableWellFormed | snake.js:14-164 | every reachable state has the snake on the board, without repeated cells, and off the food |
| StepFacts.OutOfBoundsEndsGame | snake.js:65-68 | a head off the board ends the game with snake, food and score unchanged and the score prepended to the history |
| StepFacts.SelfCollisionEndsGame | snake.js:70-75 | a head on any later segment ends the game in the same way |
| StepFacts.MovingIntoTailEndsGame | snake.js:70-75 | moving into the current tail cell ends the game although, in a well-formed state, that tick would not eat and the tail would have moved |
| StepFacts.SafeStepMovesHead | snake.js:76-88 | a safe tick keeps playing and the history; the new body is the head plus the old body when eating, and the head plus the old body without its tail otherwise, with the food unchanged |
| StepFacts.TickAppliesLastAcceptedKey | snake.js:62-65 | after a burst of keys, from ready or from play, the tick applies the heading of the last accepted key and moves the head that way |
| StepFacts.TickKeepsDirectionWithoutAcceptedKey | snake.js:61-65 | after a burst with no accepted key, a tick in play keeps the old pending direction, and a tick still in ready changes nothing |
| Scenarios.FreshGame | snake.js:14-23 | a fresh game is snake [(10,10)], all directions right, food (15,15), score 0, speed 200, ready |
| Scenarios.RestartIsFreshGame | snake.js:157-159 | a restart in any phase gives exactly the fresh game of snake.js:15-23, with the score history carried over |
| Scenarios.SpeedCurve | snake.js:80 | the interval is 200, 190, 70, 60, 60 at scores 0, 1, 13, 14, 20 |
| Scenarios.FirstUpStartsAndTurns | snake.js:128-138 | Up in ready starts play at 200 ms and sets the pending direction up |
| Scenarios.FirstLeftStartsButIsRefused | snake.js:128-144 | Left in ready starts play but the turn is refused |
| Scenarios.OtherKeyDoesNotStart | snake.js:128-134 | a non-arrow key in ready changes nothing |
| Scenarios.LeftThenUpMovesUp | snake.js:62-65 | moving right, Left then Up before a tick moves the head up |
| Scenarios.FirstBurstLeftThenUp | snake.js:128-144 | from a fresh game, Left starts play but is refused, Up is then taken, and the first tick moves the head up |
| Scenarios.FirstFoodSpeedsUp | snake.js:76-85 | eating the first food gives score 1, two cells, the first free draw as food, speed 190 and a timer restart at 190 |
| Scenarios.LeftEdgeEndsGame | snake.js:65-68 | leaving the left edge ends the game and prepends the score |
| Scenarios.ChasingTheTailEndsGame | snake.js:70-75 | turning into the tail cell of a four-cell snake ends the game |

## Left out

- Drawing and messages (`draw`, `drawTile`, `showMessage`, `hideMessage`, `updateScoreboard`, the game-over `alert`, snake.js:1-5, 29-58, 110-123): output with no game logic. The display of only the ten newest history entries is part of this.
- Timers (`setInterval`, `clearInterval`, `setTimeout`): each operation returns a `Timer` request instead of scheduling anything; the 600 ms "Start!" message timeout and the 100 ms alert delay are not modelled.
- `Math.random` in `placeFood`: replaced by the sequence of cells the loop would draw, each on the board. Step requires that one of them is free when the tick eats. A board with no free cell left, where the loop never ends (`Food.FullBoardHasNoFreeDraw` shows no draw can stop it), is therefore outside the model. Termination of the retry loop for real random draws is not modelled.
- `tileCount = canvas.width / gridSize` depends on the page; it is a parameter. The start state is well formed only when `tileCount > 15`, so that (15, 15) is on the board.
- The restart button wiring and `restartBtn.blur()` (snake.js:157-164): restarting is `Game.Reset`, which re-runs `initGame` with the history kept.
- Game.Step: requires a non-empty snake, because the source reads `snake[0]` unconditionally; every reachable state has one.
