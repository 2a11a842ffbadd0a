# Snake game rules, modelled and verified in Dafny

This project models the game logic of a pygame Snake game (`snake_game.py`). The game logic runs in
`game_loop`, one pass of its frame loop at a time:

- The key chain turns the snake, or starts a speed boost, which has a cooldown.
- The snake moves one block on every k-th frame, where k comes from the effective speed. It wraps
  around the window edges and the 40-pixel score band.
- The new head is appended and at most one tail cell is dropped.
- The run ends when the head hits the body or an obstacle.
- Eating food adds points, length and level progress. The food is redrawn, a power-up may be
  placed with up to 100 attempts, and the level goes up at 50 progress.
- Picking up a power-up applies its kind: length, speed or multiplier.
- Achievements are checked on every frame.
- The timers count down.

The project also models the pieces around the loop:

- the set-up of a session, with obstacle placement;
- the `LEVELS` and `ACHIEVEMENTS` tables;
- the difficulty menu's left/right cycle;
- the high-score text rule: parse with `isdigit`, write `str(score)` only when the score beats the
  stored value.

How the model is built:

- The locals of `game_loop` are one `GameState` value.
- `Rules.FrameSpec` specifies a frame as a composition of stage functions.
- `Session.Frame` performs the frame step by step, the way the loop body does. It is proved to compute
  `FrameSpec`.
- `Session.Play` is the frame loop. It keeps the invariant `Rules.Valid` and the `Rules.Alive`
  predicate, and stores the high score when the run ends.
- The retry loops that draw random cells are methods over caller-supplied sequences of candidate
  cells. Each is proved equal to a specification function ("the first acceptable draw").

Modules, one per file:

- `Wrappers`: `Option`.
- `Config`: constants, `LEVELS`, the difficulty cycle.
- `Grid`: cells, bounds, `is_valid_position`, move with wrap-around.
- `Spawn`: food, power-up and obstacle placement.
- `Achievements`: `check_achievements`.
- `HighScore`: the high-score text.
- `Rules`: the state, the invariant and the frame as functions.
- `Properties`: lemmas about frames.
- `Session`: set-up, the imperative frame and the loop.

External inputs become parameters of `FrameInput`:

- the held keys;
- the wall clock (`time.time()`, in milliseconds);
- the random food and power-up draws;
- the power-up chance roll (`random.random()` scaled to 0..999);
- the power-up kind.

Timers count frames: 5 s is 300 frames and 15 s is 900 frames at 60 frames per second.

Three facts about the code shape the model:

- Achievements are checked on every frame, after the food and pickup checks (snake_game.py:517).
- Food, power-up and obstacle cells come from rejection sampling: a random grid cell is drawn and
  redrawn until `is_valid_position` accepts it (snake_game.py:343-347, 468-472, 476-483).
- The boost timer and cooldown go down by 1/60 s on every frame (snake_game.py:522-525), so the model
  counts them in frames.

## Model

| member | source | states |
|---|---|---|
| Config.Settings | snake_game.py:54-58 | the LEVELS row for each difficulty: speed 10/15/20, power-up chance 5%/3%/2% (per mille), 0/3/5 obstacles; every speed lies in 10..20 and every chance strictly between 0 and 1 |
| Config.CycleRight | snake_game.py:289-291 | RIGHT in the difficulty menu is undone by LEFT and always changes the selection |
| Config.CycleLeft | snake_game.py:289 | LEFT in the difficulty menu always changes the selection |
| Config.CycleRoundTrips | snake_game.py:289-291 | RIGHT undoes LEFT, three presses of either key come back to the start, and RIGHT reaches all three difficulties |
| Grid.IsValidPosition | snake_game.py:326-335 | a candidate cell is accepted exactly when it is in bounds below the score band, off the snake and the obstacles, and differs from the food and power-up cells given |
| Grid.MoveHead | snake_game.py:398-404 | the wrapped head stays in bounds from an in-bounds head and a step of at most one block, stays on the block grid for a grid head and a heading, and is the plain sum when that sum is in bounds |
| Grid.WrapsToOppositeEdge | snake_game.py:400-404 | leaving through the right, left, bottom or top edge re-enters at the opposite edge on the same row or column |
| Spawn.FirstValidIndex | snake_game.py:468-472 | the index where a retry loop stops: every earlier draw is rejected and the draw there, if any, is accepted |
| Spawn.FirstValidIndexUnique | snake_game.py:468-472 | any index with all earlier draws rejected and that draw accepted is the stopping index |
| Spawn.FirstValidIsFree | snake_game.py:326-335 | an accepted draw is one of the draws, in bounds, off the snake and obstacles and apart from food and power-up; no result means every draw was rejected |
| Spawn.SpawnFood | snake_game.py:468-472 | the food retry loop returns the first draw accepted against snake, obstacles and power-up (None when the draws run out) |
| Spawn.PlacePowerup | snake_game.py:474-484 | the power-up loop tries at most 100 draws against the new food and returns the first accepted, else no power-up |
| Spawn.ObstaclesFrom | snake_game.py:341-347 | a finished obstacle set-up has exactly the count asked for, keeps the ones already placed, and each new one is in bounds, off the snake, not the food and not a repeat of an earlier obstacle |
| Spawn.ObstacleIsFirstAccepted | snake_game.py:341-347 | each obstacle still missing is the first remaining draw accepted against the snake, the obstacles so far and the food, and the set-up fails exactly when no remaining draw is accepted |
| Spawn.PlaceObstacles | snake_game.py:341-347 | the nested for/while set-up loop computes ObstaclesFrom on the draws |
| Achievements.TableUnlocks | snake_game.py:61-65 | on the fresh ACHIEVEMENTS table a check reports "Score Master" exactly at score 50 or more, "Power-up Pro" at 3 or more power-ups and "Level Climber" at level 3 or more, in that order |
| Achievements.Checked | snake_game.py:85-90 | after a check each record's flag is "was unlocked or its condition holds", and nothing else in a record changes |
| Achievements.CheckAchievements | snake_game.py:85-93 | the loop over the records updates them to Checked and returns NewUnlocks |
| Achievements.NewUnlocksExact | snake_game.py:85-93 | a name is reported exactly when some record was locked, its condition holds on the stats, and it carries that name |
| Achievements.NothingNewIffUnchanged | snake_game.py:85-93 | a check reports nothing exactly when it changes no record |
| Achievements.CheckIdempotent | snake_game.py:85-93 | a second check with the same stats reports nothing and changes nothing |
| HighScore.StripLeft | snake_game.py:104 | `strip()` on the left: the result is a suffix of the text that does not start with white space, and everything removed is white space |
| HighScore.StripRight | snake_game.py:104 | `strip()` on the right: the result is a prefix of the text that does not end with white space, and everything removed is white space |
| HighScore.StripLeftPadding | snake_game.py:104 | `strip()` removes exactly the white space in front of a text that starts with another character |
| HighScore.StripRightPadding | snake_game.py:104 | `strip()` removes exactly the white space behind a text that ends with another character |
| HighScore.ParseHighScore | snake_game.py:104-105 | the text reads as 0 unless its stripped form is all digits |
| HighScore.ParsePadded | snake_game.py:104-105 | white space around the number is ignored: any blank prefix and suffix around `str(n)` still reads as n |
| HighScore.GetHighScore | snake_game.py:98-108 | a missing file reads as 0 (the source writes "0" and reads it back); a present file reads as its parsed text |
| HighScore.DecimalRoundTrip | snake_game.py:114 | the digits `str(n)` writes are read back by `int` as n |
| HighScore.ParseDecimal | snake_game.py:104-114 | the text written for a score is read back by the parse as that score |
| HighScore.StoredAfterRun | snake_game.py:98-114 | after update_high_score the stored value reads as the larger of the score and the old high score, and the text is untouched when the score does not beat it |
| Rules.Steer | snake_game.py:363-378 | a direction key is taken only across the current axis and sets that key's heading (never a reversal); the boost fires exactly when no direction was taken, space is held and the cooldown has run out |
| Rules.BoostRespectsCooldown | snake_game.py:374-376 | space alone does nothing while the cooldown runs, and sets the boost timer and cooldown once it has run out |
| Rules.EffectiveSpeed | snake_game.py:396 | the effective speed is never below the base speed |
| Rules.SpeedGrowsWithScore | snake_game.py:396 | more points never lower the effective speed, and the boost doubles it |
| Rules.MoveInterval | snake_game.py:397 | frames per move `max(1, 60 // speed)`: for speeds up to 60 it is the k with k * speed <= 60 < (k + 1) * speed, that is 60 // speed; above 60 it is 1 |
| Rules.Advance | snake_game.py:406-413 | the append and single tail drop grow the snake by at most one cell, end in the new head, keep a suffix of the old cells in order, respect `length`, and add no other cell |
| Properties.AdvanceKeepsOrder | snake_game.py:406-413 | after a move the body behind the head is a suffix of the old snake |
| Properties.FrameKeepsValid | snake_game.py:363-529 | every frame keeps the invariant: 1 <= len(snake) <= length on grid cells, progress in {0,10,...,40}, base speed matching the level, stats in step with score and level, timers in range, obstacles, food and power-up in bounds and apart |
| Properties.FrameMovesOneStep | snake_game.py:398-413 | a frame leaves the snake as it was, or appends one wrapped head one block along the heading and keeps the old cells, at most one tail cell dropped, in order |
| Properties.FrameEndsRunOnCollision | snake_game.py:412-415 | the run ends exactly when the moved head lies on the rest of the body or on an obstacle; the food-unplaceable outcome leaves the state alone |
| Properties.FrameIsMonotone | snake_game.py:461-520 | score, level, length and the power-up count never go down, obstacles and difficulty never change, and achievement records only unlock |
| Properties.FrameKeepsCellsDistinct | snake_game.py:406-415 | a frame that does not end the run keeps the snake free of repeated cells |
| Properties.QuietFrame | snake_game.py:461-514 | a frame whose head lands on neither the food nor the power-up leaves score, length, progress, level, base speed, stats, food and power-up as they were |
| Properties.FrameEatsFood | snake_game.py:461-491 | on food: +10 points (x2 with the multiplier), +1 length, +10 progress with a level-up at 50 (progress 0, base speed +2), new food off the snake; a new power-up appears only when none was out and the roll is under the level's chance, and in that case it is the first of the 100 draws accepted against the new food, or none when all are rejected |
| Properties.FrameCollectsPowerup | snake_game.py:501-514 | on the power-up: counted and removed; length gives +20 points (x2) and +2 cells, speed starts the boost (one frame already counted down), multiplier turns on from the clock |
| Properties.FrameReportsNewUnlocks | snake_game.py:516-520 | after a frame every record whose condition holds is unlocked, and the names reported are exactly those of records locked before the frame |
| Properties.MealsLevelUp | snake_game.py:461-491 | after k meals without the multiplier the score is up 10k, length up k, and the level up once per five meals counted from the progress, with progress and base speed to match |
| Properties.FrameIsOneMeal | snake_game.py:461-491 | an eating frame changes score, length, progress, level and base speed exactly as one step of the meal tracker |
| Properties.FiveMealsOnMedium | snake_game.py:461-491 | five meals on Medium from the start: score 50, length 6, level 2, progress 0, base speed 17 |
| Session.NewSession | snake_game.py:302-348 | the set-up: one centre cell standing still, score 0, level 1 at the level's speed, the obstacles of ObstaclesFrom; the session satisfies the invariant and is alive |
| Session.ReadKeys | snake_game.py:363-378 | the key if-chain computes ApplyInput |
| Session.Step | snake_game.py:398-413 | the move computes Move and returns the new head |
| Session.EatFood | snake_game.py:461-491 | the meal block computes Eat, including the failed food placement |
| Session.PickUp | snake_game.py:501-514 | the pickup block computes Collect |
| Session.Tick | snake_game.py:522-529 | the timer block computes EndOfFrame |
| Session.FinishFrame | snake_game.py:461-529 | everything after the move computes AfterMove |
| Session.Frame | snake_game.py:363-529 | one pass of the loop body computes FrameSpec and keeps the invariant |
| Session.StillJustified | snake_game.py:516-520 | a reported achievement name stays backed by an unlocked record through later checks |
| Session.FrameJustified | snake_game.py:516-520 | a frame's reported names are added to the notices without losing their backing records |
| Session.StillComplete | snake_game.py:516-520 | a frame that continues reports every record it unlocks, so no unlock is missing from the notices |
| Session.Play | snake_game.py:353-529 | the frame loop keeps the invariant; it ends the run exactly when the snake is no longer alive, then stores the high score; score, level and length never decrease; obstacles are fixed; records only unlock; every notice names a record unlocked during the run and every record unlocked during the run is among the notices; starting from a snake without repeated cells, a run still going has none |

## Left out

- Rendering, animation, particles, the trail buffer, messages and notification timing: these are presentation only.
- Audio, event polling, the pause loop, the menus, and the waits for a key after a level-up and after the game is over: these are I/O and user interface. The menu's left/right mapping is kept as `Config.CycleLeft`/`CycleRight`.
- Quitting and restarting by the recursive `game_loop()` call: this is control flow. `Session.NewSession` builds a fresh session instead, and the achievement records carry over as its parameter.
- The files behind get_high_score, update_high_score, load_achievements and save_achievements: disk access is modelled as an optional text value in and out of `Session.Play`. Saving the achievement flags is not modelled.
- Randomness: every `random` call is a caller-supplied input.
- Session.Tick: the boost timers are whole frames (300 and 900) rather than floats decremented by 1/60 per frame, so floating-point rounding is not captured.
- Session.Tick: the multiplier expiry compares one clock reading per frame, in milliseconds. The source reads `time.time()` separately at pickup and at the expiry test.
- Session.EatFood: the source retries the food draw forever. The model gives up with `FoodUnplaceable` when the supplied draws run out, and the frame then leaves the state unchanged.
- Session.Play: a `FoodUnplaceable` frame stops the loop, where the source would keep drawing.
- Session.NewSession: a set-up whose obstacle draws run out returns None, where the source would keep drawing. The first food is a parameter and is not checked against the start cell, as in the source.
- Spawn.PlacePowerup: the caller must supply at least 100 draws, one for each attempt the source may make.
- HighScore.ParseHighScore: `isdigit` is modelled for ASCII digits only. Other Unicode decimal digits, and `int`'s handling of them, are not modelled.
