# Dodging game core in Dafny

A model of the game rules of a browser dodging game. The player steps left and right along the bottom of the field. Enemies fall in fixed columns at random speeds. A collision costs a life, and the score goes up by one for every enemy spawned.

Everything is immutable data plus pure step functions. DOM nodes, timers, the clock and `Math.random()` are left out.

The field constants (`GAME_WIDTH`, `GAME_HEIGHT`, `ENEMY_WIDTH`, `ENEMY_HEIGHT`, `PLAYER_WIDTH`, `PLAYER_HEIGHT`, `MAX_ENEMIES`) are defined in a file that is not part of this model. They are a `Config` record, and `Config.Valid()` states the layout they are assumed to have:
- all sizes are positive;
- `GAME_WIDTH` is a multiple of `ENEMY_WIDTH` and of `PLAYER_WIDTH`;
- `MAX_ENEMIES <= GAME_WIDTH / ENEMY_WIDTH`;
- `3 * PLAYER_WIDTH <= GAME_WIDTH`.

Modules, one per source file:
- `Enemies` (enemy.dfy): one falling enemy (`js/Enemy.js`).
- `Players` (player.dfy): the player sprite (`js/Player.js`).
- `EngineUtilities` (engine_utilities.dfy): choosing a column for a new enemy (`js/engine-utilities.js`).
- `GameEngine` (engine.dfy): the tick, the collision test and the session phases (`js/Engine.js`).
- `EngineProofs` (engine_proofs.dfy): the session invariant and the properties of the engine.
- Helpers: `GameConfig`, `Wrappers` (an `Option` type) and `Arith` (facts about multiples and remainders).

The session phase (NotStarted, Running, GameOver, Ended) is not stored anywhere. It is read off which window listeners are registered:
- `startKey` (keypress);
- `restartKey` (keypress);
- `keydownHandler` (keydown, which drives movement).

A `loopPending` flag stands for the outstanding `setTimeout(gameLoop, 20)`.

Events are `ArrowLeft`, `ArrowRight`, `EnterKey` and `Timeout`. Enter and the timeout carry what the tick they trigger consumes: the elapsed milliseconds and a random source `Rng`. The `k`-th spawn of a tick reads `rng(k)`, which gives a column choice and the `Math.random()` value behind the speed.

Lane choice is modelled twice, and the two versions are proved to agree:
- `NextEnemySpot` follows the source's rejection loop over a finite list of random draws. It returns `None` when every draw hits a taken column, which is where the real loop would keep drawing.
- `SpawnSpot` is the nondeterministic choice among the free columns that the tick uses.

`NextEnemySpotOutcomes` and `SpawnSpotOutcomes` prove that both can produce exactly the free columns.

Points of the code worth knowing:
- **Movement before the start.** The keydown handler is registered in the constructor (`js/Engine.js:31`), so the arrow keys already move the player before the start. The model does the same (`MovementLiveness`).
- **Scoring.** The constructor comment calls the score "enemies avoided" (`js/Engine.js:23`), but `updateScore` adds one per enemy spawned (`js/Engine.js:62-69`, `js/Engine.js:151`). The model does the same.
- **Table size.** The taken-column table is created with five entries (`js/engine-utilities.js:12`). A JavaScript array grows when written past its end, and its missing entries read as falsy. The table is therefore exact for any number of columns (`SpotsTaken`), so no five-column limit is assumed.

## Model

| member | source | states |
|---|---|---|
| Enemies.SpeedOf | js/Enemy.js:38 | the speed `Math.random() / 2 + 0.25` lies in [0.25, 0.75) |
| Enemies.NewEnemy | js/Enemy.js:5-39 | a new enemy has x = spot * ENEMY_WIDTH, y = -ENEMY_HEIGHT, is not destroyed, has the enemy size and a speed in [0.25, 0.75) |
| Enemies.RemoveEnemy | js/Enemy.js:58-61 | the enemy is destroyed afterwards and nothing else about it changes |
| Enemies.Update | js/Enemy.js:42-55 | y grows by timeDiff * speed; destroyed afterwards exactly when it was destroyed before or y is past GAME_HEIGHT; spot, x, w, h and speed are unchanged |
| Enemies.FallIsMonotone | js/Enemy.js:42-61 | over any run of updates with non-negative times y never decreases, column, size and speed never change, destroyed never reverts, and it is set exactly when the enemy has passed the bottom |
| Enemies.UpdateKeepsOk | js/Enemy.js:42-55 | an update of a well-formed enemy that does not destroy it leaves it well-formed, and in particular between -ENEMY_HEIGHT and GAME_HEIGHT |
| Enemies.NewEnemyOk | js/Enemy.js:5-39 | a new enemy in a real column is a well-formed member of the enemy list |
| Players.NewPlayer | js/Player.js:7-16 | the player starts at x = 2 * PLAYER_WIDTH and y = GAME_HEIGHT - PLAYER_HEIGHT - 10, with the player size |
| Players.MoveLeft | js/Player.js:33-39 | x drops by PLAYER_WIDTH when x > 0, otherwise the player is unchanged; y, w and h never change |
| Players.MoveRight | js/Player.js:42-47 | x grows by PLAYER_WIDTH when x + PLAYER_WIDTH < GAME_WIDTH, otherwise the player is unchanged; y, w and h never change |
| Players.ResetPlayer | js/Player.js:50-53 | x goes back to its starting value and nothing else changes |
| Players.NewPlayerOnGrid | js/Player.js:7-16 | the starting position is inside the field and on the PLAYER_WIDTH grid |
| Players.MoveKeepsOnGrid | js/Player.js:33-53 | each move or reset keeps x in [0, GAME_WIDTH - PLAYER_WIDTH], a multiple of PLAYER_WIDTH |
| Players.MovesStayOnGrid | js/Player.js:7-53 | under any sequence of moves and resets x stays in [0, GAME_WIDTH - PLAYER_WIDTH] on the grid, and y, w, h never change |
| EngineUtilities.JsStore | js/engine-utilities.js:14 | a JavaScript array write makes exactly that index truthy or falsy as written and leaves every other index reading as before |
| EngineUtilities.SpotsTaken | js/engine-utilities.js:12-15 | the table marks a column exactly when some enemy of the list occupies it, for any number of columns |
| EngineUtilities.Candidate | js/engine-utilities.js:21 | a random draw proposes a column below the number of columns |
| EngineUtilities.FirstUntaken | js/engine-utilities.js:18-22 | the loop returns the first proposed column the table does not mark, and returns nothing exactly when every draw proposes a marked column |
| EngineUtilities.NextEnemySpot | js/engine-utilities.js:8-25 | a returned column is in [0, GAME_WIDTH / ENEMY_WIDTH), is occupied by no enemy of the list, and is the first free draw; no result exactly when every draw hit an occupied column |
| EngineUtilities.FreeLanes | js/engine-utilities.js:12-22 | lists, in increasing order, exactly the columns below n that no enemy occupies |
| EngineUtilities.SpawnSpot | js/engine-utilities.js:8-25 | the chosen column is in range and occupied by no enemy of the list |
| EngineUtilities.FreeLaneCount | js/engine-utilities.js:19-22 | k enemies leave at least n - k of the first n columns free |
| EngineUtilities.RoomMeansFreeLane | js/engine-utilities.js:19-22 | with fewer enemies than columns some column is free, so the rejection loop can return |
| EngineUtilities.SpawnSpotOutcomes | js/engine-utilities.js:19-24 | the columns the choice can produce are exactly the free columns |
| EngineUtilities.NextEnemySpotOutcomes | js/engine-utilities.js:8-25 | the columns the rejection loop can return, over all random draws, are exactly the free columns |
| GameEngine.ListenersOf | js/Engine.js:27-31 | movement is registered exactly before the start and while running, restart-by-Enter exactly at game over, start-by-Enter exactly before the start; the phase read back is the one given |
| GameEngine.NewEngine | js/Engine.js:6-32 | a new engine has 9 lives, score -MAX_ENEMIES, no enemies, the player at its start, movement live, and no tick pending |
| GameEngine.AdvanceAll | js/Engine.js:52-54 | every enemy is updated with the same elapsed time, in place: same length, and each entry is the update of the entry at the same index |
| GameEngine.RemoveDestroyed | js/Engine.js:57-59 | the result holds only non-destroyed enemies, every one present in the input, as a subsequence in its original order; how often each is kept is stated by RemoveDestroyedCounts |
| EngineProofs.RemoveDestroyedCounts | js/Engine.js:57-59 | the filter keeps each non-destroyed enemy exactly as many times as it occurs in the input and drops every destroyed one |
| GameEngine.Refill | js/Engine.js:62-69 | the list ends with MAX_ENEMIES enemies (or its old length if longer), the old enemies first and unchanged, each added enemy fresh in a column free at its spawn, and the score up by exactly the number added |
| GameEngine.IsPlayerDead | js/Engine.js:87-100 | true exactly when the player collides with some enemy of the list |
| GameEngine.DisplayGameOver | js/Engine.js:304-330 | afterwards Enter restarts and movement is off; nothing else changes |
| GameEngine.EndGame | js/Engine.js:402-405 | afterwards movement and restart are both off; nothing else changes |
| GameEngine.AdvanceAndRefill | js/Engine.js:52-69 | after advance, filter and refill, the survivors come first in order, the list is back at capacity, every new enemy is fresh in a free column, and the score rose by the number added |
| GameEngine.CheckCollision | js/Engine.js:72-84 | on a collision one life is lost, the loop stops, movement goes off and restart comes on unless no lives are left; without one lives and listeners are unchanged and the next tick is scheduled |
| GameEngine.GameLoop | js/Engine.js:38-85 | one tick keeps the player, refills to MAX_ENEMIES with the survivors first, never lowers the score, and loses one life and stops exactly when the refilled list collides with the player |
| GameEngine.StartClick | js/Engine.js:364-370 | start switches off start-by-Enter, loses at most one life, and from an empty list with score -MAX_ENEMIES leaves score 0 and a full field |
| GameEngine.ResetSession | js/Engine.js:334-351 | restart keeps lives, empties the enemy list, sets the score to -MAX_ENEMIES, resets the player, turns restart-by-Enter off and movement on |
| GameEngine.RestartClick | js/Engine.js:334-354 | after a restart and its tick the player is back at the start, the score is 0, the field is full, and at most one life is lost |
| GameEngine.Step | js/Engine.js:357-416 | no event raises the number of lives, and none lowers it by more than one |
| EngineProofs.CollidesIffInteriorsMeet | js/Engine.js:89-94 | for boxes of positive size the test holds exactly when the open boxes share a point |
| EngineProofs.TouchingEdgesDoNotCollide | js/Engine.js:89-94 | boxes that meet only along an edge do not collide |
| EngineProofs.RemoveDestroyedAppend | js/Engine.js:57-59 | filtering a concatenation is the concatenation of the filtered parts, so the original order is kept |
| EngineProofs.RemoveDestroyedOfActive | js/Engine.js:57-59 | a list with no destroyed enemy passes the filter unchanged |
| EngineProofs.RemoveDestroyedOfDestroyed | js/Engine.js:57-59 | a destroyed enemy is filtered out |
| EngineProofs.RemoveDestroyedKeepsDistinct | js/Engine.js:57-59 | filtering keeps enemy columns distinct |
| EngineProofs.SurvivorsOk | js/Engine.js:52-59 | advancing with a non-negative time and then filtering keeps the list well-formed with distinct columns, and never lengthens it |
| EngineProofs.RefillOk | js/Engine.js:62-66 | the refill adds only well-formed enemies in columns not yet taken, so no two enemies share a column |
| EngineProofs.InitialInv | js/Engine.js:6-32 | the engine as constructed satisfies the session invariant |
| EngineProofs.TickOutcome | js/Engine.js:72-84 | from Running, a collision costs exactly one life, schedules nothing, and leads to Ended at 0 lives and GameOver otherwise; without one the engine stays Running with its lives |
| EngineProofs.TickKeepsInv | js/Engine.js:38-85 | a tick from a ready engine keeps the invariant: distinct columns, exactly MAX_ENEMIES enemies, non-negative score, listeners matching the phase |
| EngineProofs.StepKeepsInv | js/Engine.js:334-416 | every event keeps the session invariant |
| EngineProofs.RunKeepsInv | js/Engine.js:38-85 | any sequence of events keeps the invariant, so columns stay distinct and the player stays clamped on every tick |
| EngineProofs.RunNeverRaisesLives | js/Engine.js:72-73 | along any sequence of events lives never increase and fall by at most one per event |
| EngineProofs.RestartIgnoresElapsedTime | js/Engine.js:43-49 | the stale elapsed time restart's tick sees (the frame clock is not reset) has no effect on its result |
| EngineProofs.MovementLiveness | js/Engine.js:329-351 | the arrow keys move the player before the start and while running, and change nothing at game over or at the end |
| EngineProofs.EnterLiveness | js/Engine.js:356-377 | Enter starts the game only before the start, restarts it only at game over, and is ignored while running or ended |
| EngineProofs.EndedIsTerminal | js/Engine.js:402-405 | once the game has ended no event changes the engine |
| EngineProofs.PhasesMoveForward | js/Engine.js:334-416 | no event takes a started session back to NotStarted; from Running an event leads to Running, GameOver or Ended; Ended stays Ended |
| EngineProofs.RunPhasesMoveForward | js/Engine.js:334-416 | along any sequence of events a started session never returns to NotStarted and an ended one stays Ended |

## Left out

- Presentation: `displayScore`, `displayLives`, `updateLives`, `createTextContainer`, `displayStartGame`, `addBackground`, the DOM half of `updateScore`, `displayGameOver` and `endGame`, and the score-dependent game-over messages (`js/Engine.js:315-327`). They only draw.
- Timing: `setTimeout` is the `loopPending` flag plus the `Timeout` event. The `Date` clock and `lastFrame` are replaced by the elapsed time each event carries, a non-negative number of milliseconds.
- Randomness: `Math.random()` values are inputs, either a list of draws or an `Rng`. Whether the rejection loop terminates with probability 1 is not modelled.
- Floating point: positions and speeds are exact reals, not IEEE doubles.
- Mouse clicks: the Start and Restart buttons are out of scope, and only the keyboard path is modelled. The click listener for `startClick` (`js/Engine.js:282`) is never removed, so it can start a second loop alongside the first. The model runs one loop at a time.
- Key filtering: only Enter and the two arrow keys are events. Every other key does nothing in every phase.
- Keypress dispatch when both start and restart listeners are registered: this cannot happen under the invariant. `Step` tries the start listener first.
- The global `gameEngine` that `keydownHandler` reads is the engine passed to `Step`.
- `removeEnemy` removes the enemy's DOM node, which throws if the node is already gone. The model has no DOM, so this failure mode does not exist there.
