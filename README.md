# Jumping Frog: a verified model of the simulation

This project models the simulation engine of the terminal game "Jumping
Frog". The frog starts at the bottom of the road and tries to reach row 1.
On the way it faces:

- hazard cars that bounce or wrap around, two of which stop when the frog
  is near;
- friendly cars that carry the frog;
- coins to collect;
- obstacles three cells wide;
- from level 2, a stork that chases the frog.

There are three levels. Reaching row 1 is worth five points and moves the
game to the next level; at level 3 it ends the run.

The model follows the C code function by function:

- `Settings` holds the compiled capacities (9 cars, 2 friendly cars, 5
  coins, 20 obstacles) and the tunables the simulation reads. Its
  predicate `Valid` lists what the code relies on and never checks.
- `State` holds the entities as values and the whole game record as the
  value `World`. It also defines the `(short int)` conversion, `abs`, what
  "well formed" means and what "on the screen" means.
- `Rng` stands in for `rand()` with an object. The object draws the next
  number of an arbitrary stream of naturals, so each property is proved
  for every stream.
- `Rules` gives the rules of one call as pure functions on `World`, and
  the lemmas that state what the game promises about them.
- `Game` is the game record as a class with one array per kind of
  entity. Each game.c function is a method that updates the record in
  place. A per-tick method is proved to end in exactly the state the
  matching function of `Rules` gives. A level set-up method states the
  layout it leaves behind.
- `MainLoop` holds `init_game`, `check_game_events` and
  `process_game_input`, the goal step, and the two nested loops of
  `main_game_loop`. Keystrokes and clock readings come in as a finite
  script, one of each per frame.

`time()` becomes a parameter `now` counted in whole seconds, so the
cooldown test `difftime(...) >= 1.0` becomes `now - last >= 1`. The loops
that redraw until a condition holds are bounded by a parameter `budget`:
each coin-row redraw loop takes at most `budget` draws, each obstacle gets
at most `budget` extra attempts of two draws each, and the stopping-car
choice takes at most `budget` draws in total. These methods return `ok`,
which says that every such loop ended by its own condition. What the
source promises after those loops is stated under `ok`, and the contracts
also say when `ok` can be false: only when some loop spent its whole
budget, which shows in how far the random stream has moved.

In a few places the code does something other than what a reader of the
game's rules might expect. The model follows the code:

- Coin rows. The redraw loop compares coin i with each earlier coin j in
  turn and never looks back. Only the last comparison, with coin i - 1,
  is sure to hold at the end. So only neighbouring coins are proved to lie
  on different rows. For example, with the rows of coins 0 and 1 being A
  and B, coin 2 can be redrawn from A to B (to leave coin 0's row) and
  then back to A (to leave coin 1's row).
- Frozen cars. A stopping car near the frog gets speed 0 written into its
  speed, and that value stays. An odd-indexed car never redraws its speed,
  so once frozen it stays still for good (`Rules.FrozenOddCarStaysStill`).
- Carrying. When several friendly cars share the frog's cell, the loop
  overwrites the carrying index each time, so the last such car carries
  the frog.
- Obstacles. Hitting an obstacle costs a life and resets the frog, like a
  car or the stork. It is not a barrier that undoes the move.
- The stork. It moves inside `move_frog`, right after a successful jump,
  and not during the tick update.
- Restarts. After a goal below level 3, `restart_game` runs twice: once
  inside `next_level` and once more at the top of the outer loop.

## Model

| member | source | states |
|---|---|---|
| Settings.SpeedTier | game.c:335 | the speed bound for a level is tier 1 at level 1, tier 2 at level 2 and tier 3 at every other level; on a valid configuration it lies in [1, 32767] |
| Settings.ScreenFitsShort | game.c:304 | on a valid configuration (w*h/200 <= 20, h > 4) the width is below 840 and the height below 4200, so the code's short casts leave screen coordinates unchanged |
| Rng.Rand.Next | game.c:219-220 | each `rand()` call returns the next value of the stream and moves the position on by one |
| State.Int16 | game.c:222 | `(short int)v` lies in [-32768, 32767], agrees with v modulo 2^16, and is v itself when v is in range |
| State.Abs | game.c:216 | `abs(v)` is v or -v and never negative |
| State.Blank | main.c:106 | the zeroed record has arrays of the compiled sizes, no carry, no obstacles, level 0 and no lives |
| Rules.Approach | game.c:174-178 | a stork step on one axis goes toward the target and never past it; the distance shrinks by one unless the stork is already level with the frog |
| Rules.Jump | game.c:160-168 | a jump changes only the frog's cell and the carry; afterwards the frog is never carried; a carried frog's jump only releases it and keeps its cell |
| Rules.ChaseStork | game.c:173-185 | the stork step changes only the stork's cell |
| Rules.MoveFrog | game.c:156-187 | move_frog changes only the frog's cell, the carry, the jump clock, the step count and the stork |
| Rules.MoveFrogCooldown | game.c:157-171 | within a second of the last jump nothing changes; otherwise the jump time becomes now and the step count rises by one, also when the jump is spent leaving a friendly car, which clears the carry and keeps the frog in place |
| Rules.MoveFrogAxes | game.c:163-168 | a free frog takes each delta exactly when that coordinate stays on the screen, checked per axis, so an on-screen frog stays on screen |
| Rules.StorkChase | game.c:173-185 | the stork moves exactly at level 2 on even step counts and at every step from level 3; it moves one cell per axis toward the frog's new cell, and no axis distance ever grows |
| Rules.MoveFrogKeepsInBounds | game.c:156-187 | a jump changes only the frog, the carry, the clock, the step count and the stork, and keeps every entity on the screen |
| Rules.Bounce | game.c:193-199 | a step past the right edge ends on column w-1 heading left, one past the left edge on column 0 heading right, and any other step is taken as it is; the result is always on the screen |
| Rules.MoveFriendly | game.c:192-199 | a moved friendly car is on the screen, keeps its row and speed, and changes direction only when clamped at an edge (-1 at w-1, +1 at 0) |
| Rules.MoveFriendlies | game.c:191-199 | the friendly-car loop keeps the number of cars and every car's row and speed; each of the first max_friendly_cars cars ends on the screen; the cars after them are untouched |
| Rules.MoveFriendliesStep | game.c:191-199 | one more pass of the loop moves exactly car `i` by the one-car rule and leaves the rest of the prefix result as it was |
| Rules.LastCarrier | game.c:201-204 | the carrier found is a friendly car on the frog's cell with no later car on it, and it is -1 exactly when no car is on the frog's cell |
| Rules.Redraw | game.c:219-221 | only even-indexed cars redraw; a redrawn speed lies in [1, tier 3]; odd indices draw nothing |
| Rules.HazardStep | game.c:213-241 | one hazard car's tick is a legal step for every stream: a waiting car only counts down; a near stopping car stores speed 0 and stays put; otherwise the car moves and either bounces (index < 5) or wraps to the other edge with a new delay in [1, 10] (index >= 5); it ends on the screen and keeps its row |
| Rules.HazardsStep | game.c:212-242 | the car loop keeps the array length and only moves the stream forward |
| Rules.HazardsStepLegal | game.c:212-242 | after the loop each of the first max_cars cars took a legal step against the frog's cell, and the cars from max_cars on are untouched |
| Rules.FrozenOddCarStaysStill | game.c:216-222 | an odd-indexed car with speed 0 and no delay keeps its column, speed 0 and delay on every later tick |
| Rules.UpdateGameFacts | game.c:190-243 | update_game moves every friendly car on screen along its row; the frog is then carried by the last friendly car on its cell, or stays carried by the same car; a carried frog sits on its carrier; every hazard car takes a legal step against the frog's new cell; nothing else changes |
| Rules.UpdateGameKeepsInBounds | game.c:190-243 | a tick keeps every entity on the screen |
| Rules.UpdateGame | game.c:190-243 | a tick keeps the record well formed (array sizes, obstacle count, a valid carrying index) and never moves the random stream back |
| Rules.Collect | game.c:278-283 | the coin loop keeps the number of coins and their cells; no collected flag reverts; among the first max_coins no coin on the frog's cell is left uncollected; and a coin that changed was an uncollected coin on the frog's cell among the first max_coins |
| Rules.CollectCoins | game.c:277-284 | collection changes only the coins and the score, keeps the record well formed, and raises the score by at most max_coins |
| Rules.Pickups | game.c:278-283 | the number of coins picked up is at most the number of coins |
| Rules.PickupsCountsCoins | game.c:278-283 | the count picked up equals the number of distinct coin indices that are uncollected and on the frog's cell |
| Rules.CollectCoinsFacts | game.c:277-284 | the score rises by exactly the number of uncollected coins on the frog's cell among the first max_coins; exactly those become collected; every other coin is unchanged; no flag reverts; nothing else changes |
| Rules.NoPickupsAfterCollect | game.c:279 | after a collection no coin on the frog's cell is left to pick up |
| Rules.CollectCoinsIdempotent | game.c:277-284 | a second collection on the same cell adds nothing to the score and changes no coin |
| Rules.Events | main.c:71-80 | a frame's events keep the record well formed, never move the random stream back, and cost at most one life |
| Rules.EventsFacts | main.c:71-80 | a frame's events score the coins picked up this frame even when the frame costs a life; a collision costs exactly one life and puts the frog on (w/2, h-2); no collision keeps the lives; level, obstacles and stork are unchanged; the screen invariant survives |
| Game.GameState.constructor | main.c:106 | the new record is the zeroed record |
| Game.GameState.MoveFrog | game.c:156-187 | the in-place jump ends in exactly the state of the pure jump rule (cooldown, carry release, per-axis bounds, stork step) |
| Game.GameState.JumpFrog | game.c:160-168 | the carry release or the bounded move, in place |
| Game.GameState.MoveStork | game.c:173-185 | the stork step, in place; the short casts of level 3 do not change the steps of -1, 0 and 1 |
| Game.GameState.MoveFriendlyCars | game.c:191-210 | the friendly-car loop and the snap end in exactly the state of the friendly-car rule and the last-carrier rule |
| Game.GameState.MoveFriendlyLoop | game.c:191-205 | after the loop every friendly car has moved by the friendly-car rule, and the frog is carried exactly when it was already or some moved car lands on its cell, by the last such car |
| Game.GameState.MoveFriendlyCar | game.c:192-204 | car i moves as the friendly-car rule says, and the frog becomes carried by i exactly when car i lands on its cell |
| Game.GameState.MoveHazardCar | game.c:213-241 | car i and the stream end as the pure hazard step says; nothing else changes |
| Game.GameState.MoveHazardCars | game.c:212-242 | the hazard loop ends in exactly the cars and stream position of the pure car loop |
| Game.GameState.UpdateGame | game.c:190-243 | the in-place tick ends in exactly the state and stream position of the pure tick rule |
| Game.GameState.CheckCollision | game.c:246-274 | the read-only scan answers true exactly when the frog is not carried and some car hitbox (speed cells each side, whatever the delay), some placed obstacle's three cells, or from level 2 the stork covers the frog's cell |
| Game.GameState.CheckCoinCollection | game.c:277-284 | the in-place collection ends in exactly the state of the pure coin rule |
| Game.GameState.GenerateCoins | game.c:287-299 | every coin is on the screen, on a field row [2, h-3] and uncollected; coins from max_coins on are untouched; with `ok` each coin's row differs from the previous coin's row; `ok` fails only when some redraw loop spent all its `budget` draws |
| Game.GameState.PlaceCoin | game.c:290-297 | coin i is placed on the screen in the field and uncollected; no other coin changes; with `ok` its row differs from coin i-1's row; `ok` fails only when some redraw loop spent all its `budget` draws |
| Game.GameState.SeparateCoin | game.c:294-296 | the redraw changes only coin i's row, keeps it in the field, and reports whether the row now differs from coin j's; it draws at most `budget` times, and the rows still agree only when all `budget` draws were spent |
| Game.GameState.PlaceObstacle | game.c:311-321 | one attempt puts obstacle i on the screen in the field, and is valid exactly when its row is no car's row |
| Game.GameState.GenerateObstacles | game.c:302-324 | the obstacle count is w*h/200 and fits its array; every obstacle is on the screen in the field; `ok` holds exactly when no obstacle shares a row with any car; it fails only when some obstacle spent all its `budget` extra attempts |
| Game.GameState.FreshLevelInBounds | game.c:327-364 | a freshly made layout puts every entity on the screen |
| Game.GameState.FreshLevelView | game.c:327-364 | the in-place fresh layout (`FreshLevel`), read as a value, is `FreshLayout`: frog at (w/2, h-2) with no steps, cars and friendly cars placed, at most two stopping cars, coins on screen and uncollected, w*h/200 obstacles on screen, the stork in its corner from level 2, and under `ok` two stopping cars, coin rows differing and no obstacle on a car row |
| Game.FreshLayoutWeaken | game.c:327-364 | a layout with the redraw-bound properties has all the others |
| Game.GameState.PlaceCars | game.c:331-338 | car i is set on row 2+2i, on the screen, with direction +1 or -1, speed in [1, tier for the level] and delay in [1, 10]; stopping flags and cars from max_cars on are untouched |
| Game.GameState.PlaceFriendlyCars | game.c:339-344 | friendly car i is set on row 2+(2i mod (h-4)), on the screen, with direction +1 or -1 and speed in [1, tier 1] |
| Game.GameState.ClearStopping | game.c:345-347 | after the clearing loop none of the first `maxCars` cars stops; every other field and every later car is as before |
| Game.GameState.PickStoppingCars | game.c:345-355 | only the stopping flags change; at most two cars stop; `ok` holds exactly when two do; it fails only when all `budget` draws were spent |
| Game.GameState.PlaceVehicles | game.c:331-355 | cars, friendly cars and stopping flags are laid out as restart_game says; `ok` holds exactly when two distinct cars stop; it fails only when all `budget` draws of the stopping-car loop were spent; cars from max_cars on and friendly cars from max_friendly_cars on are untouched |
| Game.GameState.PlaceItems | game.c:356-357 | coins and obstacles are laid out as generate_coins and generate_obstacles say; `ok` fails only when some redraw loop spent its whole budget; coins from max_coins on and obstacles from the new count on are untouched |
| Game.GameState.PlaceLayout | game.c:331-357 | vehicles, coins and obstacles are all laid out as above; `ok` fails only when some redraw loop spent its whole budget; the array entries past the configured counts are untouched |
| Game.GameState.RestartGame | game.c:327-364 | the frog is at (w/2, h-2); cars, friendly cars, stopping cars, coins and obstacles are laid out as above; from level 2 the stork is at (w-1, h-2); the step count is 0; every entity is on screen; the same layout read as a value is `FreshLayout` of the new record; score, lives, level, clocks, carry and the array entries past the configured counts are unchanged; `ok` fails only when some redraw loop spent its whole budget |
| Game.GameState.Relayout | game.c:328-363 | the statements of restart_game in order leave the layout `FreshLevel` describes, change the stork only from level 2, and leave the array entries past the configured counts as they were |
| Game.GameState.ResetStork | game.c:359-363 | from level 2 on the stork is back in its corner (last column, second row from the bottom), below level 2 it stays where it was; the step count is 0 |
| Game.GameState.NextLevel | game.c:367-374 | below level 3 the level rises by one and a fresh layout is made (`FreshLayout` of the new record), keeping score, lives, both clocks and the carry, with `ok` failing only when some redraw loop spent its whole budget; at level 3 only the lives change, to 0, and nothing is drawn |
| MainLoop.KeyMove | main.c:93-101 | up is (0,-1), down (0,1), left (-1,0) and right (1,0); every other key, 'q' and 'l' included, is no move |
| MainLoop.Input | main.c:83-102 | a key that is not an arrow changes nothing; an arrow changes only the frog's cell, the carry, the jump clock, the step count and the stork |
| MainLoop.Frame | main.c:35-36 | a frame keeps the level, costs at most one life and never moves the random stream back |
| MainLoop.InputFacts | main.c:83-102 | only an arrow can change the state; no key changes score, lives, level, cars, coins or obstacles; the screen invariant survives |
| MainLoop.OppositeArrows | main.c:93-100 | up then down, or left then right, with both cooldowns over, brings a free in-bounds frog back to its cell after two steps |
| MainLoop.FrameFacts | main.c:35-36 | a frame costs at most one life, raises the score by at most max_coins and never lowers it, keeps the level, and keeps every entity on the screen |
| MainLoop.InitGame | main.c:15-18 | level 1, three lives, and both clocks at now; nothing else changes |
| MainLoop.CheckGameEvents | main.c:71-80 | update, coin collection and the collision check run in place and end in exactly the state and stream position of the pure frame-event rule |
| MainLoop.ProcessGameInput | main.c:83-102 | the key's move is applied in place as the pure input rule says |
| MainLoop.ReachGoal | main.c:41-44 | (through `AfterGoal`) reaching row 1 adds five points; below level 3 the next level's layout follows (`FreshLayout` of the new record) with the lives, both clocks and the carry kept, and `ok` failing only when some redraw loop spent its whole budget; at level 3 only the lives change, to 0 |
| MainLoop.AfterGoalScored | main.c:41-44 | the goal step in place ends as `Scored` says on values: five more points; below level 3 the next level on a fresh layout with the lives, clocks and carry kept; at level 3 the same record with no lives and the stream untouched |
| MainLoop.ScoredWeaken | main.c:41-44 | the goal step's outcome with the redraw-bound properties has the outcome without them |
| MainLoop.MainGameLoop | main.c:27-50 | (through `Account`) frame i of the run is `Frame` applied to key i and clock reading i, from the state and stream position `before[i]` to `after[i]`; the first frame starts on a restart_game layout (`FreshLayout`, redraw-bound properties under `ok`) with the starting score, lives, level, clocks and carry; within a layout each frame starts where the previous one ended; after a goal below level 3 the next frame starts on a new restart_game layout with five more points, the next level, the same lives, clocks and carry; no frame follows one that left no lives or a goal at level 3; when the last frame left no lives or did not reach row 1 the record is its state, and when it reached row 1 with lives left the record is the goal step's outcome (`Scored`: five more points, then the next level's fresh layout below level 3, or no lives at level 3); with no lives at the start no frame runs and nothing changes; the run ends only when the lives are gone or the script is used up; the score never falls; the lives never rise and never go below 0; the level only climbs and never past 3; once a frame has run, every entity is on the screen; `ok` fails only when some redraw loop spent its whole budget |
| MainLoop.AccountStep | main.c:28-47 | one turn of the outer loop, a new layout begun on the current record and played to its end, extends the account of frames played: the new frames are recorded, the first is linked to the frame before it across the goal, and the record follows the new last frame |
| MainLoop.LinkedWeaken | main.c:28-47 | the links between frames with the redraw-bound layout properties have the links without them |
| MainLoop.EndsWeaken | main.c:41-44 | the end of a layout's run with the redraw-bound properties has the end without them |
| MainLoop.PlayLayout | main.c:30-46 | the inner loop plays a run of frames from frame `start`, each the `Frame` of the one before with its own key and clock reading; no frame but the last leaves no lives or the frog on row 1, and the loop stops before the end of the script only after such a frame; when the last frame left no lives or did not reach row 1 the record is its state, and when it reached row 1 with lives left the goal step follows from that state (`AfterGoal`); the score never falls, the lives never rise, the level only climbs and never past 3, and every entity stays on the screen |
| MainLoop.PlayFrames | main.c:33-40 | the frames of the inner loop up to its break: a run of frames from frame `start`, none but the last leaving no lives or the frog on row 1, stopping early only after such a frame, with the record in the state of the last frame and the level unchanged |
| MainLoop.PlayNewLayout | main.c:28-47 | one turn of the outer loop: a new restart_game layout (`Begins`: `FreshLayout` with the redraw-bound properties under `ok`, and the record's score, lives, level, clocks and carry), then the run of frames on it, each the `Frame` of the one before; no inner frame stops the loop, and the loop stops before the end of the script only after a stopping frame; the record ends as `Ends` says: the last frame's state, or after a goal five more points with the next level's fresh layout and the same lives below level 3, or no lives at level 3 |
| MainLoop.PlayFrame | main.c:35-36 | one frame in place ends in exactly the state and stream position of `Frame`, keeps the screen invariant and the level, and never lowers the score |
| MainLoop.PlayNext | main.c:35-36 | playing the next key of the script extends the run of frames by the frame's result |

## Left out

- Rendering (`draw_*`, `display_*`, `Start`, `Welcome`, `EndGame`, `display_game_over`) is terminal output and is not part of this model.
- `save_game` and `load_game` are file I/O. Saving does not change the record. Loading overwrites the record with unchecked bytes.
- MainLoop.ProcessGameInput: the 'l' key is treated like any other non-arrow key. The state `load_game` would read from a file is not modelled.
- `load_config` reads a file. The configuration is a given value, constrained by `Settings.Valid`.
- The per-frame `getmaxyx` re-measure, `usleep`, `getch` and its timeout are I/O and timing. The screen size is fixed for the run. It is the configuration the record is created with, which stands for `init_game`'s measurement.
- `srand(time(NULL))` seeding is not modelled. Every `rand()` draw comes from an arbitrary stream.
- The configuration fields used only by the renderer, and `max_obstacles` and `quit_time`, are not modelled. Neither is read by the simulation.
- The 32-bit `int` overflow of score, lives, step count and coordinates is not modelled. These values grow by at most a few units per frame.
- Speed tiers of 32768 and above are not modelled: `Settings.Valid` keeps each tier below 2^15, because from there on the code's `(short int)` casts would make some drawn speeds negative. The cast itself is modelled and used in the speed redraw.
- Car rows 2+2i are not bounded by the screen height. With a short screen the code places cars below the road, and the model keeps exactly that.
- Game.GameState.GenerateCoins: the redraw loop is bounded by `budget` draws. The neighbouring-row property is stated under `ok`; the unbounded loop may never end and promises it only when it does.
- Game.GameState.PlaceCoin: same bound and same `ok` condition as GenerateCoins.
- Game.GameState.GenerateObstacles: the placement loop is bounded by `budget` extra attempts per obstacle. "No obstacle on a car row" is stated under `ok`.
- Game.GameState.PickStoppingCars: the marking loop is bounded by `budget` draws. "Exactly two stopping cars" is stated under `ok`; otherwise at most two.
- Game.GameState.PlaceVehicles: the stopping-car loop is bounded by `budget` draws, so "exactly two stopping cars" holds only under `ok`.
- Game.GameState.PlaceItems: the coin-row and obstacle-row properties hold only under `ok`, for the bounds of GenerateCoins and GenerateObstacles.
- Game.GameState.PlaceLayout: the stopping-car, coin-row and obstacle-row properties hold only under `ok`.
- Game.GameState.RestartGame: the stopping-car, coin-row and obstacle-row properties hold only under `ok`.
- Game.GameState.NextLevel: below level 3 the fresh layout's stopping-car, coin-row and obstacle-row properties hold only under `ok`.
- MainLoop.ReachGoal: below level 3 the fresh layout's stopping-car, coin-row and obstacle-row properties hold only under `ok`.
- MainLoop.PlayLayout: the frame loop also stops at the end of the script, since the script of keys is finite.
- MainLoop.PlayFrames: the frame loop also stops at the end of the script.
- MainLoop.PlayNewLayout: the new layout's stopping-car, coin-row and obstacle-row properties are stated only under `ok`, as for RestartGame; without `ok` the rest of the layout is stated.
- MainLoop.MainGameLoop: the loop runs on a finite script, so it also stops when the script ends. The source loop runs until the lives are gone. Every layout's stopping-car, coin-row and obstacle-row properties are stated only under `ok`, as for RestartGame.
