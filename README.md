# Snake game simulation, modelled in Dafny

This project models the game simulation of the `SnakeGame` class of a browser
snake game (`script.js`). The game is a tick-driven state machine on an `N` by
`N` tile board. The snake is a head-first list of tiles. A timer calls `update`
once per interval; `update` moves the head one tile in the current direction
`(dx, dy)`. A move onto a wall or onto any body segment ends the run. A move onto
the food grows the snake, adds 10 points and places new food. Every fifth food
raises the level and shortens the interval by 10%, never below 50 ms. Each key press or swipe
turns the snake by a right angle or is ignored, and never reverses it; two of
them within one tick can reverse it. Pausing, resuming, game
over and going back to the menu switch the game state and start or stop the
timer. Game over also folds the run into the statistics.

Modules, one per component:

- `Grid` (Grid.dfy): tiles, the bounds check, the shape of a body
  (in bounds, distinct, edge-connected) and the collision rule.
- `Direction` (Direction.dfy): key-name lower-casing, the key handler's
  movement branch (`Steer`) and the swipe rule (`Swipe`).
- `Speed` (Speed.dfy): the difficulty table and the level-up interval.
- `Screens` (Screens.dfy): the state name `showScreen` derives from a screen
  id by removing the first `-screen`.
- `Food` (Food.dfy): food placement, which draws random tiles until one is
  free.
- `Game` (Game.dfy): the run state as a `Snapshot` value with one function per
  operation, the invariants and the lemmas about them, and the `SnakeGame`
  class. The class has the source's fields; its methods update them in place
  and promise `State() == XSpec(old(State()), ...)`.
- `Wrappers` (Wrappers.dfy): `Option`. There is no food before the first run,
  so the food field is `None` then.

The board size `tileCount` is a positive integer constant of the object.
`Math.random()` is an oracle. Each food placement receives the sequence of
random pairs its loop would consume, each number in [0, 1). The source loop
only ends on a free tile, so the model requires that the sequence holds one.
The interval `gameSpeed * 0.9` is exact `real` arithmetic.

Four behaviours of the code run against what a reader of the game would
expect, and the model keeps each of them as written:

- `pauseGame` sets the state to `paused`, but then calls `showScreen('pause-screen')`,
  which overwrites it with `pause`. No operation ever leaves `paused` behind, so
  `resumeGame`, which checks for `paused`, never does anything. A paused game cannot
  resume, and later ticks change nothing. So the round trip "pause then resume,
  then go on ticking" does not match ticking without the pause.
  `Game.PauseThenResumeIsStuck`, `Game.StepNeverPaused` and
  `Game.RunNeverPaused` state it.
- `gameOver` first sets `gameOver`, but the state it leaves is `game-over`,
  because `showScreen('game-over-screen')` runs last.
- A move onto the tile the tail is about to leave counts as a self collision,
  because the check runs against the whole body before the tail is removed.
- The no-reversal rule compares a key with the direction the last key set, not
  with the direction of the last tick. A snake moving right that gets `w` and
  then `a` before the next tick is turned straight round, and that tick runs the
  head into the segment behind it. `Game.TwoKeysReverse` states it.

## Model

| member | source | states |
|---|---|---|
| `Game.SnakeGame.constructor` | script.js:5-72 | the initial object: state `welcome`, empty snake, no food, no direction, score 0, level 1, interval 150, loop stopped, loaded difficulty and statistics; the invariant holds |
| `Game.InitialWellformed` | script.js:11-23 | the initial state is `welcome` and satisfies the whole-object invariant |
| `Game.SnakeGame.ShowScreen` | script.js:76-82 | the state becomes the screen id without its first `-screen`; nothing else changes |
| `Screens.StateName` | script.js:81 | the name is as long as the id, or seven characters shorter |
| `Screens.StateNameRemovesFirst` | script.js:81 | when `-screen` first occurs at `i`, the name is the id with exactly that occurrence cut out |
| `Screens.StateNameWithoutMarker` | script.js:81 | an id without `-screen` is its own state name |
| `Screens.WelcomeScreenState` | script.js:72 | `welcome-screen` gives `welcome` |
| `Screens.GameScreenState` | script.js:231 | `game-screen` gives `game` |
| `Screens.PauseScreenState` | script.js:412 | `pause-screen` gives `pause`, not `paused` |
| `Screens.GameOverScreenState` | script.js:446 | `game-over-screen` gives `game-over` |
| `Screens.MainMenuState` | script.js:456 | `main-menu` is left as it is |
| `Direction.Lower` | script.js:204 | the lower-cased key has the same length, and each character is the ASCII lower case of the original |
| `Direction.Steer` | script.js:213-226 | a key either leaves the direction as it is or turns it into a unit step on the other axis, and only when that axis is still; a delta among the five stays among them; a moving snake is never reversed; each movement key is taken when its axis is still and ignored when it is not; other keys change nothing |
| `Direction.Swipe` | script.js:700-731 | the same no-reversal and orthogonal-turn guarantees as for keys; no change unless the swipe is longer than 50 px; the dominant axis and the sign of the swipe pick the new direction when that axis is still, and a swipe along the axis the snake already moves on changes nothing |
| `Direction.UnitStepIsAdjacent` | script.js:274 | a unit step moves to an edge neighbour |
| `Speed.DifficultySpeed` | script.js:258-266 | the start interval is 200 for easy, 100 for hard, 75 for extreme, always above the 50 ms floor, and 150 exactly for any name other than easy, hard and extreme |
| `Speed.LevelUpSpeed` | script.js:320 | the interval after a level-up is the larger of 50 and 0.9 times the old one, never grows from the floor upwards, and strictly shrinks above the floor |
| `Speed.SpeedAfterBounds` | script.js:318-320 | after any number of level-ups the interval lies between 50 and its start |
| `Speed.NormalFirstLevelUp` | script.js:320 | the first level-up on normal difficulty gives 135 |
| `Food.TileInBounds` | script.js:335-336 | two random numbers in [0, 1), scaled and floored, give a tile on the board |
| `Food.FirstFree` | script.js:333-338 | the draw that ends the loop is free and every draw before it is taken |
| `Food.PlaceFood` | script.js:332-338 | the placed food is not on the snake and lies on the board |
| `Food.SampleFreeTile` | script.js:332-339 | the do-while loop returns the first free tile the oracle offers, off the snake and on the board |
| `Game.SnakeGame.GenerateFood` | script.js:332-339 | only the food changes, to the first free drawn tile |
| `Game.SnakeGame.CheckCollision` | script.js:294-308 | true exactly when the head is off the board or equal to some segment, the last one included |
| `Game.SnakeGame.ResetGame` | script.js:240-256 | the new state is `ResetSpec` of the old one |
| `Game.ResetShape` | script.js:240-253 | the reset gives one segment at `(floor(N/2), floor(N/2))`, no direction, score 0, level 1, no food eaten, the difficulty's interval, food elsewhere, and the run invariant |
| `Game.SnakeGame.StartGame` | script.js:230-238 | the state is `game`, the run is reset and the loop runs; the invariant is kept |
| `Game.SnakeGame.Update` | script.js:268-292 | the new state is `UpdateSpec` of the old one; the invariant is kept |
| `Game.UpdateIdle` | script.js:268-272 | outside the game state, or with no direction, a tick changes nothing |
| `Game.UpdateCollides` | script.js:276-280 | a colliding tick ends the run (`game-over`, loop stopped) and leaves snake, score and food alone |
| `Game.UpdateMoves` | script.js:282-289 | a tick that neither collides nor eats puts the new head in front and drops the last segment; length, score, level, food, interval, statistics and direction stay |
| `Game.SnakeGame.EatFood` | script.js:310-330 | the new state is `EatSpec` of the old one |
| `Game.UpdateEats` | script.js:310-328 | an eating tick keeps the tail, so the length grows by one; score +10, food eaten +1, total food +1, new food off the grown snake |
| `Game.LevelRule` | script.js:318-320 | the level rises by one, and the interval becomes `max(50, 0.9 * interval)`, exactly when the new food count is a multiple of five |
| `Game.LevelLockStep` | script.js:318-319 | the level formula `1 + foodEaten / 5` agrees with raising the level on every fifth food |
| `Game.UpdateLength` | script.js:282-289 | per tick the length grows by one exactly when the snake eats, and is unchanged otherwise |
| `Game.UpdateIntervalMonotone` | script.js:318-320 | a tick never lowers the interval below 50 and never raises it |
| `Game.UpdateKeepsWellformed` | script.js:268-292 | a tick keeps the body on the board, distinct and connected, the food free, score and level in lock-step with food eaten, and the interval within bounds |
| `Game.SnakeGame.GameOver` | script.js:428-447 | the new state is `GameOverSpec` of the old one |
| `Game.GameOverStats` | script.js:428-447 | the best score becomes the maximum of the old best and this run's score, one more game is counted, total food stays, the state is `game-over` and the loop stops |
| `Game.SnakeGame.PauseGame` | script.js:408-416 | from the game state, the state becomes `pause` and the loop stops; otherwise nothing changes |
| `Game.SnakeGame.ResumeGame` | script.js:418-426 | from `paused`, the state becomes `game` and the loop runs; otherwise nothing changes |
| `Game.PauseThenResumeIsStuck` | script.js:408-426 | after pausing, resuming changes nothing, the loop stays stopped and a tick does nothing |
| `Game.SnakeGame.BackToMenu` | script.js:449-458 | the loop stops and the state is `menu` |
| `Game.SnakeGame.HandleGameInput` | script.js:203-227 | space or escape pauses; any other key steers as `Steer` says |
| `Game.SnakeGame.OnKeyDown` | script.js:120-124 | keys reach the game's handler only in the game state |
| `Game.SnakeGame.OnTouchEnd` | script.js:694-731 | outside the game state nothing changes; otherwise the swipe steers as `Swipe` says |
| `Game.StepKeepsWellformed` | script.js:203-458 | every event (tick, key, swipe, start, resume, back to menu) keeps the whole-object invariant |
| `Game.StepNeverPaused` | script.js:408-426 | no event leaves the state `paused` behind |
| `Game.StepNeverReverses` | script.js:214-226 | no event turns a moving snake straight round, and the direction stays one of the five deltas |
| `Game.TwoKeysReverse` | script.js:213-226 | from a snake moving right, `w` then `a` before a tick reverse the direction, and that tick ends the run on the segment behind the head |
| `Game.RunKeepsWellformed` | script.js:268-292 | the invariant holds after any sequence of events |
| `Game.RunNeverPaused` | script.js:419 | over any sequence of events the `paused` state is never reached, so the resume branch is dead |
| `Game.TicksWhenIdle` | script.js:269 | ticks outside the game state change nothing |
| `Game.TickAdvancesHead` | script.js:274 | a tick that keeps the game running moves the head by the unchanged direction |
| `Game.TicksAdvanceHead` | script.js:274-289 | after k ticks with the game still running, the head is k steps of the unchanged direction from where it started |
| `Game.FirstMoveScenario` | script.js:240-289 | on a 20 by 20 board a run starts at (10, 10); after `d`, one tick puts the single segment on (11, 10) |
| `Game.WallScenario` | script.js:296-298 | a snake moving right from column 19 of a 20 by 20 board hits the wall and the run ends |

## Left out

- Drawing on the canvas, theme colours, DOM updates of scores and statistics, and console output. These are display side effects.
- Sound and music (`playSound`, the `*Music` methods, `updateAudioVolume`). These are media calls.
- Loading and saving settings and statistics in `localStorage`. The constructor instead receives the stored difficulty and statistics as parameters.
- Timers: `setInterval` and `clearInterval` become the flag `loopRunning`. The model does not check that ticks arrive only while the loop runs, or at the interval's pace. `startGame` installs a new timer without clearing an old one; with a flag, this cannot show.
- The wall clock: the `gameStartTime` bookkeeping and `stats.totalTime` in `gameOver` are not modelled, and the statistics hold no total time.
- Event wiring, `preventDefault`, double-tap zoom suppression and the welcome-screen listeners. `handleAction` dispatch and the settings, statistics and credits screens are not modelled, nor are the settings listeners. The only setting read is the difficulty. It is fixed for the object's lifetime: in the source, the settings listener can change it between runs, so in the menu the last run's interval need not lie below the new difficulty's start value. `Game.RunOk` bounds the interval by the current difficulty's start value, which holds in the model only because the difficulty never changes; it is harmless in the source because `startGame` resets the interval.
- The swipe's pixel bookkeeping: touch start and end coordinates become the two deltas of `OnTouchEnd`.
- Food placement's uniform distribution and its termination: the oracle is an arbitrary sequence of draws that contains a free tile. When the grown snake covers every tile of the board, no draw is free and the source's loop never ends, so the page hangs (the game has no win state). The model excludes that tick through `TickReady`. On a one-tile board (`tileCount == 1`) the snake's start tile is the only tile, so already the food placement of `resetGame` finds no free tile and `startGame` hangs; the model's `StartGame` then has no draws that meet its precondition.
- `Direction.Lower`: lower-cases ASCII letters only. Full Unicode case mapping is not modelled. For the key names the handler compares against, the result is the same.
- `Speed.DifficultySpeed`: a name inherited by every JavaScript object (such as `toString`) would make the table lookup return a function, not a number. It is treated like any other unknown name.
- `Speed.LevelUpSpeed`: exact real arithmetic, not IEEE-754 doubles, so rounding of `gameSpeed * 0.9` is not modelled.
- `tileCount` is the canvas width divided by 20. It is taken here as a positive integer; a canvas width that is not a multiple of 20 is not modelled.
