# Flappy-bird game simulation in Dafny

This project models the simulation core of a small side-scrolling browser game
written in C++. The player keeps a falling bird in the air by flapping. The
bird has to pass through the gaps of a stream of pipe pairs without touching a
pipe or the ground. The model covers these parts:

- **Geometry** (`geometry.dfy`, module `Geometry`): `Vec2`, `Rect` and the
  axis-aligned overlap test `RectOverlap`.
- **Bird** (`bird.dfy`, module `Birds`): the class `Bird`. `Move` applies
  gravity capped at the terminal fall speed, then moves the bird and clamps it
  at the ceiling. After game over it also clamps the bird to rest on the
  ground. `Flap` replaces the vertical velocity with the flap speed. Both are
  proved against the functions `Moved` and `Flapped`.
- **Pipe** (`pipe.dfy`, module `Pipes`): the pipe record and its three
  operations `Moved`, `ShouldMoveNext` and `UpdateScore`. The game stores its
  pipes by value in two arrays of three, so a pipe is a datatype. Each
  operation that changes a pipe returns the updated pipe, and the game writes
  it back into its slot.
- **Game state as a value** (`simulation.dfy`, module `Simulation`): the
  whole game as a `World`. It holds the bird, the upper and lower pools, the
  score, `gameOver` and `startPipes`. There is one function per step of the
  frame update: move, recycle, score and collide. There are also functions
  for placing a pair, ending the game, the player's action and a restart. The
  lemmas about them live here too.
- **Game controller** (`game.dfy`, module `Games`): the class `Game` with
  the bird, the two `array<Pipe>` pools, `score`, `gameOver` and
  `startPipes`. Its methods mutate this state in place with the program's own
  loops. Each one is proved to compute the matching `Simulation` function on
  `State()`.

Modelling choices:

- Positions and velocities are exact `real`s.
- The frame time is the parameter `delta`. In the program it is the
  animation driver's step time divided by 1000.
- The random generator's integer draws are parameters of type `Draw`: a gap
  offset and a gap size. `Update` receives three draws, one for each recycle
  the frame could make. Firing slots use them in call order.
  `RouteInput`/`StartGame` receive one draw.
- The generator's `GetInt(lo, hi)` is taken to include `lo` and exclude
  `hi` (`DrawInRange`). Only `PlacedGapInRange` depends on that choice.
- Integer division `nextGapSize/2` is modelled by `TruncHalf`, which
  truncates toward zero like C++.

Facts about the code that the model makes explicit:

- `RectOverlap` (main.cc:32-35) is symmetric in its two rectangles. The
  y-axis test writes `r2.size.y + r2.position.y` with its terms in the other
  order, which changes nothing. `OverlapSymmetric` proves this.
- After game over `Update` still calls `bird.Move` on every frame
  (main.cc:178) before it returns. Gravity therefore builds up again to the
  fall-speed cap, and the bird falls until it rests on the ground.
  `StepAfterGameOver` and `FallSpeedCapped` state this.
- `StartGame` (main.cc:281-309) never writes a pipe's `spawned` flag, and
  it keeps the y position of pairs 1 and 2 from the earlier game.
  `Restarted` states both. `FirstRecycleAfterRestart` shows one consequence:
  if the earlier game left pair 0's flag set, the first crossing of the
  trigger line recycles nothing.
- The game never reads the `spawned` and `addedToScore` flags of the lower
  pool, and a frame never writes them (`RecycleIgnoresLowerFlags`,
  `ScoreFrom`). Only construction and a restart write them; a restart clears
  `addedToScore` (main.cc:295).
- The two pipes of a pair always share their x, their size and their
  velocity (`Aligned`, `StepKeepsAligned`, `RouteInputKeepsAligned`).

## Model

| member | source | states |
|---|---|---|
| `Geometry.RectOverlap` | main.cc:32-35 | The test of main.cc:34, conjunct for conjunct: the two x-spans overlap and the two y-spans overlap, which needs a positive combined width and height. Its meaning as a common interior point is `OverlapIffCommonPoint`. |
| `Geometry.OverlapIffCommonPoint` | main.cc:32-35 | For rectangles of positive size, the overlap test holds exactly when some point lies strictly inside both rectangles. |
| `Geometry.OverlapSymmetric` | main.cc:32-35 | The overlap test is symmetric in its two rectangles. |
| `Geometry.BirdAgainstGroundExample` | main.cc:32-35 | A 21-pixel bird at y = 21 does not touch the ground strip {0, 660, 480, 60}. At y = 645 it does. |
| `Birds.Moved` | main.cc:48-57 | After a move the vertical velocity is at most 750. It equals the old velocity plus gravity times delta unless capped at 750. x advances by its velocity. Let raw be the old y plus the new velocity times delta. Before game over y is raw, or 0 when raw is negative. After game over y is raw when raw lies between 0 and the resting height 660 - 1.04 * height, the resting height when raw is below the ground, and 0 when raw is above the ceiling, for a resting height >= 0. A negative resting height (a bird taller than 634 pixels) is the result whatever raw is. |
| `Birds.Flapped` | main.cc:64-67 | A flap sets the vertical velocity to -600 whatever it was, and leaves the rectangle and horizontal velocity alone. |
| `Birds.FallSpeedCapped` | main.cc:48-57 | Over any run of frames without a flap, the fall speed never exceeds 750 and the size is kept. While the game runs y stays >= 0. After game over y stays <= the resting height, so the bird never sinks into the ground, and y >= 0 when the resting height is >= 0. |
| `Birds.Bird.constructor` | main.cc:37-46 | A new bird has a zero rectangle and zero velocity. |
| `Birds.Bird.Move` | main.cc:48-57 | Updates the bird in place to the state `Moved` describes. |
| `Birds.Bird.Flap` | main.cc:64-67 | Updates the bird in place to the state `Flapped` describes. |
| `Pipes.Pipe.Moved` | main.cc:83-87 | A pipe moves by its velocity times delta. Its flags, size and velocity are unchanged. |
| `Pipes.Pipe.ShouldMoveNext` | main.cc:94-97 | The spawn trigger never fires for a pipe that has already spawned its successor. |
| `Pipes.Pipe.UpdateScore` | main.cc:99-108 | Returns true exactly when the pipe is not yet counted and lies left of the score line 163.2 - width/2. A true result sets `addedToScore`. A false result changes nothing. Nothing but `addedToScore` ever changes. |
| `Pipes.ScoredPipeStaysScored` | main.cc:99-108 | After a true result, the next call returns false and changes nothing. |
| `Pipes.ScoresAtMostOnce` | main.cc:99-108 | Over any run of move-then-score frames, a pipe scores at most once. It never scores if already counted, stays counted once it has scored, and keeps its velocity and size. |
| `Pipes.FullPassScoresOnce` | main.cc:99-108 | Take an uncounted pipe that starts right of the score line and moves left over frames of non-negative length. It scores exactly once if it ends left of the line, and never otherwise. |
| `Simulation.TruncHalf` | main.cc:227-228 | Halving truncates toward zero: the remainder is 0 or 1 for non-negative n, and 0 or -1 for negative n. |
| `Simulation.Initial` | main.cc:141-163 | After construction nothing has started and the score is 0. The bird is 21x21 at (192, 360) with zero velocity. Every pipe has both flags clear, a zero rectangle and zero velocity. |
| `Simulation.Positioned` | main.cc:220-229 | Placing pair k puts both pipes of slot k at x = 480. The opening between the upper pipe's bottom edge and the lower pipe's top is 2 * (gap/2) in truncating division. Only those two positions change: sizes, velocities, flags, other slots, bird and score stay as they were. |
| `Simulation.PlacedGapInRange` | main.cc:225-228 | With draws in the generator's ranges, the gap is centred at 360 + offset, within [200, 520). Its height is in [120, 160). |
| `Simulation.Halted` | main.cc:236-240 | Every pipe of a pool gets horizontal velocity 0. Its vertical velocity and all its other fields are kept. |
| `Simulation.Ended` | main.cc:231-241 | Game over sets `gameOver`, sets the bird's vertical velocity to 0 and every pipe's horizontal velocity to 0. All positions, flags, the score and `startPipes` are unchanged. |
| `Simulation.EndedIdempotent` | main.cc:231-241 | Ending the game again changes nothing further. |
| `Simulation.RecycleSlot` | main.cc:192-199 | When slot i fires, its upper pipe changes only by becoming spawned, and its lower pipe is untouched. The next slot (i+1)%3 is re-placed: both of its pipes are at x = 480 with an opening of 2 * (gap/2), and only their positions change, except that its upper pipe also gets `spawned` and `addedToScore` cleared. The third slot is untouched. |
| `Simulation.RecycleFrom` | main.cc:189-200 | The recycle loop changes only the two pools. |
| `Simulation.RecycleClearsTriggers` | main.cc:189-200 | After the recycle loop, no upper pipe's spawn trigger is still pending. |
| `Simulation.NoTriggerNoRecycle` | main.cc:189-200 | When no upper pipe's trigger is pending, the recycle loop leaves the game unchanged. |
| `Simulation.RecycleSlotIgnoresLowerFlags` | main.cc:192-199 | One firing neither reads nor writes the lower pool's flags. Clearing them before or after it gives the same game. |
| `Simulation.RecycleIgnoresLowerFlags` | main.cc:189-200 | The whole recycle loop neither reads nor writes the lower pool's flags. Clearing them before or after recycling gives the same game, and recycling keeps them as they were. |
| `Simulation.CountScored` | main.cc:202-204 | The number of pipes from index i on that would score now is at most the number of those pipes. It is positive exactly when one of them scores. |
| `Simulation.CountScoredAgree` | main.cc:202-204 | The count depends only on the pipes from index i on. |
| `Simulation.ScoreSlot` | main.cc:202-204 | One scoring step for slot i: that upper pipe becomes its `UpdateScore` result, the score rises by one exactly when it scored, and nothing else changes. |
| `Simulation.ScoreFrom` | main.cc:202-204 | The scoring loop touches only the upper pool and the score. Each upper pipe becomes the result of its own `UpdateScore`. The score rises by at most one per pipe, and only if some upper pipe scored. |
| `Simulation.ScoreFromCounts` | main.cc:202-204 | The scoring loop raises the score by exactly the number of upper pipes that score. |
| `Simulation.HitUpperFrom` | main.cc:207-209 | The upper-pool collision loop leaves the game unchanged or ends it. `HitUpperFromEnds` says which. |
| `Simulation.HitLowerFrom` | main.cc:211-213 | The lower-pool collision loop leaves the game unchanged or ends it. `HitLowerFromEnds` says which. |
| `Simulation.HitGround` | main.cc:215-216 | The ground check leaves the game unchanged or ends it. Afterwards the game is over exactly when it already was or the bird touches the ground. |
| `Simulation.HitUpperFromEnds` | main.cc:207-209 | The upper-pool collision loop ends the game exactly when the bird overlaps some upper pipe. Otherwise it changes nothing. |
| `Simulation.HitLowerFromEnds` | main.cc:211-213 | The lower-pool collision loop ends the game exactly when the bird overlaps some lower pipe. Otherwise it changes nothing. |
| `Simulation.Collisions` | main.cc:206-216 | The collision pass gives the ended game exactly when the bird touches a pipe of either pool or the ground. Otherwise the game is unchanged. |
| `Simulation.MovedAll` | main.cc:183-187 | Every pipe of a pool is moved by its own velocity, and the pool keeps its size. |
| `Simulation.Recycled` | main.cc:183-200 | Moving and recycling change only the two pools. |
| `Simulation.Scrolled` | main.cc:183-204 | Moving, recycling and scoring leave the bird and both flags alone. The score rises by exactly the number of recycled upper pipes that score, and no spawn trigger is left pending. |
| `Simulation.Step` | main.cc:172-217 | Before the first flap a frame changes nothing, not even the bird. After game over it changes only the bird. In every frame the score never decreases and rises by at most 3. |
| `Simulation.StepAfterGameOver` | main.cc:177-181 | After game over a frame changes only the bird. The bird moves under gravity with the ground clamp, and pipes, flags and score are unchanged. |
| `Simulation.StepWhilePlaying` | main.cc:172-217 | In a running frame the game ends exactly when the moved, recycled and scored state has the bird touching a pipe or the ground. The score rises by exactly the number of recycled upper pipes that score, and no spawn trigger is left pending. |
| `Simulation.FrozenAfterGameOver` | main.cc:180-181 | Once the game is over, any number of frames leaves every pipe, both flags and the score unchanged. |
| `Simulation.RunScoreBounds` | main.cc:202-204 | Over n frames the score never decreases and grows by at most 3n. |
| `Simulation.StartLayout` | main.cc:285-295 | A pipe of slot i as a restart lays it out: x = 600 + 270i with its y kept, size 60x480, horizontal velocity -240 with its vertical velocity kept, `addedToScore` clear and `spawned` kept. |
| `Simulation.StartBird` | main.cc:297-299 | The bird as a restart places it: at (163.2, 360) with its size kept, and vertical velocity 0 with its horizontal velocity kept. |
| `Simulation.LaidOut` | main.cc:283-301 | The layout loop of a restart gives each pipe of slot i x = 600 + 270i with its y kept, size 60x480, velocity x = -240 with its y kept, and a clear `addedToScore`, keeping `spawned`. It puts the bird at (163.2, 360) with vertical velocity 0. Nothing else changes. |
| `Simulation.Restarted` | main.cc:281-309 | A restart sets score 0 and clears `gameOver` and `startPipes`. The bird is at (163.2, 360) with vertical velocity 0, keeping its size and horizontal velocity. Pipe x positions are 480, 870 and 1140, all sizes are 60x480, and every velocity has x = -240 with its y kept. No pipe is counted. Every `spawned` flag and the y of pairs 1 and 2 are kept. Slot 0's opening is 2 * (gap/2). |
| `Simulation.RouteInput` | main.cc:267-278 | While playing, the action sets the bird's vertical velocity to -600 and `startPipes` to true, and nothing else changes. Once the game is over, it is a restart. |
| `Simulation.RestartIdempotent` | main.cc:281-309 | Restarting twice with the same draw equals restarting once. |
| `Simulation.FirstRecycleAfterRestart` | main.cc:189-200 | After any restart, a flap and one 1.25 s frame, pair 0 is at x = 180 and spawned. If its `spawned` flag was clear, pair 1 is re-placed at x = 480 with both flags clear. If the flag was left set, pair 1 is not recycled and sits at 570. |
| `Simulation.InitialAligned` | main.cc:141-163 | A new game has every pair aligned: both pipes share x, size and velocity. |
| `Simulation.MoveKeepsAligned` | main.cc:183-187 | Moving both pools keeps every pair aligned. |
| `Simulation.RecycleKeepsAligned` | main.cc:189-200 | The recycle loop keeps every pair aligned. |
| `Simulation.ScoreKeepsAligned` | main.cc:202-204 | Scoring keeps every pair aligned. |
| `Simulation.EndedKeepsAligned` | main.cc:231-241 | Game over keeps every pair aligned. |
| `Simulation.StepKeepsAligned` | main.cc:172-217 | Every frame keeps every pair aligned. |
| `Simulation.RunKeepsAligned` | main.cc:172-217 | Any run of frames keeps every pair aligned. |
| `Simulation.RouteInputKeepsAligned` | main.cc:267-309 | The player's action, flap or restart, keeps every pair aligned. |
| `Games.Game.constructor` | main.cc:141-163 | A new game's state is `Initial()`: bird at (192, 360), 21x21, default pipes, score 0, nothing started. |
| `Games.Game.Update` | main.cc:172-217 | One frame updates the game in place to `Step` of its old state with the given delta and draws. |
| `Games.Game.MovePipes` | main.cc:183-187 | Moves every pipe of a pool in place. |
| `Games.Game.RecyclePipes` | main.cc:189-200 | Runs the recycle loop in place, equal to `RecycleFrom`. |
| `Games.Game.UpdateScores` | main.cc:202-204 | Runs the scoring loop in place, equal to `ScoreFrom`. |
| `Games.Game.CheckCollisions` | main.cc:206-216 | Runs the collision loops in place, equal to `Collisions`. |
| `Games.Game.RandomlyPositionPipe` | main.cc:220-229 | Places pair k in place, equal to `Positioned`. |
| `Games.Game.GameOver` | main.cc:231-241 | Ends the game in place, equal to `Ended`. |
| `Games.Game.RouteInput` | main.cc:267-278 | Applies the action in place: a flap while playing, a restart once over. |
| `Games.Game.StartGame` | main.cc:281-309 | Restarts in place, equal to `Restarted`. |

## Left out

- Drawing (`Bird::Draw`, `Pipe::Draw`, `Game::Draw`) and all canvas set-up calls are rendering side effects with no bearing on the game state.
- The animation driver (`DoFrame`, `Start()`, `GetStepTime()`) schedules frames. The model takes the frame time as the parameter `delta`, and `StartGame`'s call to `Start()` is not modelled.
- Keyboard wiring, the global objects, `OnKeyPressed` and `main` are event plumbing. Calling `StartGame` right after construction, as `main` does, is `Restarted(Initial(), d)`.
- The random generator's internals are not visible. Its draws are parameters, bounded by `DrawInRange` where a lemma needs the bounds.
- `class Cloud` is empty. The unused field `gapSize` has no effect.
- IEEE double rounding: arithmetic is exact over the reals.
- The C++ `int` score can overflow only after billions of points. The model's score is unbounded.
- Pipes are values in the game's arrays. A pipe's own in-place mutators are modelled as functions whose results the game writes back into the same array slot. Nothing else holds a reference to a pipe, so no aliasing is lost.
