# Sorting routines and the "Rogue Run" game core, modelled in Dafny

This project models three pieces of one small Python repository:

- `sorting.py`: in-place selection sort, and bubble sort with its early exit.
- `merge_sort.py`: the top-down in-place merge sort `mergeSort` / `ms` / `merge`.
- `starwars/main.py`: the game logic of a pygame shooter, namely:
  - the sprites' own updates: lasers, thruster particles, explosions, TIE-fighter enemies and the player's X-wing;
  - the player's shields, gun cooldown and invulnerability;
  - `reset_game_state`;
  - one pass of the main loop: scoring, spawning, laser hits, ship impacts and game over.

Python compares elements with `<`, `>` and `<=`. The sorts are generic over an element type `T` with an integer key `key: T -> int` that stands for that comparison. This is what lets stability be stated. `WithKey(s, key, k)` is the subsequence of elements with key `k`. `Stable(s, t, key)` says every such subsequence is the same in `s` and `t`. A sorted stable result is unique (`Ordering.SortedStableUnique`).

The sorts keep the source's form:
- They are methods on an `array<T>`, with the same loops and swaps.
- Each is proved against a specification: sorted, a permutation and, for bubble and merge sort, stable.
- The merge sort is also proved equal to `MergeSort.TopDownSort`, a pure recursive reference sort. It splits at the same midpoint, so its halves are the recursion's own.

The game is modelled in these modules:
- **`Actors`**: the sprite values (`Laser`, `Particle`, `Explosion`, `Enemy`), their updates as step functions returning `None` when the sprite kills itself, and `Group<T>`, a class for a pygame sprite group.
- **`Pilot`**: the `Player` class and the pure specifications of what its `update`, `try_shoot` and `absorb_hit` do.
- **`GameLoop`**:
  - `World`, the state the main loop keeps: ship, four groups, score, spawn timer and game-over flag and clock;
  - one function per phase of a frame, and `TickSpec`, their composition;
  - the class `Game`, whose methods change the groups in place and are proved equal to those functions;
  - lemmas about the frame: the invariant `WorldValid` is preserved, scoring, spawning, impacts, game over and restart.

Things the frame needs from outside become inputs:
- the frame time, the restart key, the steered velocity and the fire key;
- every random draw that affects game state;
- the collision geometry and `math.sin`.

Timers, positions and the score are exact `real`s, not floats. Python's `int()` on a float is `Actors.Trunc` (truncation toward zero).

Four behaviours of the code a reader might not expect:
- With a score of 1200 the spawn interval is `max(0.38, 1.1 - 1200/2400)`, which is 0.6 s in exact arithmetic.
- The +18 for a laser hit is earned once per hit enemy that its hits do not destroy, even if it then rams the ship in the same frame. It is not earned once per laser.
- `Enemy.hit` has no guard for an enemy that is already destroyed: another hit explodes it again.
- The main loop calls `enemy.hit()` with the default damage of 1, whatever the laser's `damage` is.

## Model

| member | source | states |
|---|---|---|
| Sorting.Swap | sorting.py:17 | exchanging two entries swaps exactly those two, keeps every other entry and keeps the multiset |
| Sorting.MinIndex | sorting.py:12-15 | the inner scan returns an index in the unsorted suffix whose key is no larger than any key there, and strictly smaller than every key before it, i.e. the first minimum |
| Sorting.SelectionStep | sorting.py:11-17 | moving the suffix minimum to position i extends the sorted prefix by one, and every key in the prefix stays no larger than any key after it |
| Sorting.PlaceMin | sorting.py:12-17 | one pass of the outer loop extends the sorted, split prefix by one and keeps the multiset |
| Sorting.SelectionSort | sorting.py:8-18 | the same array is returned, sorted, as a permutation of its input; arrays of length at most 1 are untouched |
| Sorting.CompareSwap | sorting.py:27-29 | adjacent entries are swapped exactly when the left key is greater, and otherwise the array is unchanged |
| Sorting.BubblePass | sorting.py:25-29 | one pass brings a largest key up to `end` and leaves the positions after `end` unchanged; the result is a stable permutation; the pass swaps nothing exactly when the prefix up to `end` was already sorted, and then the array is unchanged |
| Sorting.PassStep | sorting.py:27-29 | one iteration of the inner loop keeps the pass invariant one position further: a largest key of the compared prefix sits at `i + 1`, the positions after `end` are unchanged, and the array stays a stable permutation of the pass's input; while nothing has been swapped the array is unchanged and its compared prefix sorted, and nothing is swapped at all when the pass's prefix was sorted |
| Sorting.SortStep | sorting.py:24-31 | after each pass the sorted suffix grows by one and the result stays a stable permutation of the input; a pass without a swap means the whole array is sorted, which justifies the early `break` |
| Sorting.BubbleSort | sorting.py:21-32 | the same array is returned, sorted and stable, as a permutation of its input; an already sorted input is unchanged |
| MergeSort.Merge | merge_sort.py:21-33 | the reference merge of two runs: the smaller head first, the left head on ties, then the rest of whichever run remains; its length is the sum of theirs (sortedness, permutation and stability are `MergeSorted`, `MergePermutation` and `MergeStable`) |
| MergeSort.MergePermutation | merge_sort.py:21-33 | merging two runs yields exactly their elements together |
| MergeSort.MergeSorted | merge_sort.py:21-33 | merging two sorted runs yields a sorted run |
| MergeSort.MergeStable | merge_sort.py:21-33 | in the merge of a sorted left run, the elements of each key from the left come first and those from the right after, each in their own order |
| MergeSort.MergeTakeLeft | merge_sort.py:22-24 | on ties (`<=`) the merge takes the left head |
| MergeSort.MergeTakeRight | merge_sort.py:25-27 | the merge takes the right head only when it is strictly smaller |
| MergeSort.MergeHeads | merge_sort.py:21-27 | the first loop stops when one run is used up, and what it has appended, followed by the merge of what is left, is the merge of the two whole runs |
| MergeSort.AppendRest | merge_sort.py:28-33 | a tail loop appends exactly the rest of its run |
| MergeSort.MergeToTemp | merge_sort.py:17-33 | `temp` holds the merge of `nums[low..mid]` and `nums[mid+1..high]` |
| MergeSort.MergeRuns | merge_sort.py:16-39 | `merge` writes that merge back over `nums[low..high]` and changes nothing outside it |
| MergeSort.MidSplit | merge_sort.py:9 | `(low + high) // 2` lies in `[low, high)`, so both halves are strictly shorter, and the left half has the reference sort's split length |
| MergeSort.TopDownSort | merge_sort.py:6-13 | the reference sort: sequences of length at most 1 are returned as they are, longer ones are split as `ms` splits them, both halves sorted and merged; the result has the input's length (its properties are the three lemmas below) |
| MergeSort.MergeHalves | merge_sort.py:9-13 | the recursive case of the reference sort: the left part has `LeftHalf` elements, the length `ms` gives `nums[low..mid]`, and the two sorted parts are merged; the result has the input's length |
| MergeSort.TopDownSortSorted | merge_sort.py:6-13 | the reference top-down sort returns a sorted sequence |
| MergeSort.TopDownSortPermutation | merge_sort.py:6-13 | the reference sort returns a permutation of its input |
| MergeSort.TopDownSortStable | merge_sort.py:6-13 | the reference sort is stable |
| MergeSort.StableSortIsTopDown | merge_sort.py:6-13 | any sorted, stable rearrangement of a sequence is exactly what the reference sort returns |
| MergeSort.Ms | merge_sort.py:6-13 | `ms` replaces `nums[low..high]` by its sorted form and changes nothing else; with `low >= high` nothing changes |
| MergeSort.MergeSortPrefix | merge_sort.py:1-3 | the same array is returned with its first `n` entries sorted, stable and permuted and the rest unchanged; with `n <= 1` (even on an empty array) nothing changes |
| Actors.Trunc | starwars/main.py:191 | Python's `int()` on a float truncates toward zero: it is the floor for non-negative values and the ceiling for non-positive ones |
| Actors.TruncMonotone | starwars/main.py:191 | truncation never decreases as its argument grows, so a harder enemy never has less health |
| Actors.Survivors | starwars/main.py:460-462 | a group update: every sprite stepped in order, the ones whose step kills them dropped; never longer than the group (`SurvivorsKeep`, `SurvivorsAllStay`) |
| Actors.Group.constructor | starwars/main.py:408-411 | a new sprite group is empty |
| Actors.Group.Add | starwars/main.py:468 | `add` appends the sprite to the end of the group |
| Actors.Group.Empty | starwars/main.py:422-425 | `empty` leaves the group without sprites |
| Actors.Group.Update | starwars/main.py:460-462 | a group update steps every sprite in order and keeps, updated, those that did not kill themselves |
| Actors.SurvivorsKeep | starwars/main.py:460-462 | a property that every sprite has and that a step preserves holds for every sprite left after the group update |
| Actors.SurvivorsAllStay | starwars/main.py:460-462 | when no sprite's step kills it, the group keeps every sprite, stepped, in the same order |
| Actors.NewLaser | starwars/main.py:78-86 | a new laser has the given centre and velocity and damage 1 |
| Actors.LaserStep | starwars/main.py:88-92 | `Laser.update`: move by `velocity * dt` and leave when the rectangle is more than 40 above or below the screen (`LaserStepBand`) |
| Actors.LaserStepBand | starwars/main.py:88-92 | a laser moves by `velocity * dt` and survives exactly when its centre stays within 53 of the screen's top and bottom edges (40 plus half its 26-pixel height); the survivor keeps its velocity and damage |
| Actors.NewParticle | starwars/main.py:117-122 | a thruster particle starts at the given point with the drawn velocity and life and an age of 0 |
| Actors.NewParticleLive | starwars/main.py:121 | a life drawn in `[0.32, 0.52]` makes a new particle live |
| Actors.ParticleStep | starwars/main.py:124-131 | `ThrusterParticle.update`: age by `dt`, move by `velocity * dt`, and leave once the age reaches the life (`ParticleStepLive`) |
| Actors.ParticleStepLive | starwars/main.py:124-131 | a particle survives a step exactly when its new age is below its life; a survivor's age grows by exactly `dt` and it stays live |
| Actors.FrameCountIsRange | starwars/main.py:138 | the explosion has exactly the frames of radius 14, 24, …, 64, the radii below 70 in steps of 10 |
| Actors.NewExplosion | starwars/main.py:159-162 | a new explosion is centred where it was made, on its first frame, with its timer at 0 |
| Actors.ExplosionStep | starwars/main.py:164-170 | `Explosion.update`: add `18 * dt` to the timer; at 1 reset it and go to the next frame, leaving after the last frame (`ExplosionStepLive`, `ExplosionLifetime`) |
| Actors.ExplosionStepLive | starwars/main.py:164-170 | a live explosion stays live and in place and moves at most one frame forward; it is killed exactly when its last frame's timer reaches 1 |
| Actors.ExplosionLifetime | starwars/main.py:164-170 | when each step is at least 1/18 s, an explosion advances one frame per step, so one made fresh is gone after exactly 6 steps; frames shorter than 1/18 s, such as those at 60 frames per second, are not covered by this lemma (each step then advances at most one frame, by `ExplosionStepLive`) |
| Actors.NewEnemy | starwars/main.py:178-191 | a new enemy's health is `2 + int(difficulty * 0.6)`, its top edge sits its own height above the screen at the drawn x, and its downward speed is the draw times the difficulty |
| Actors.NewEnemyBounds | starwars/main.py:180-191 | for draws in range and difficulty of at least 1, the image is 51–85 by 44–73 pixels, health is at least 2 and the downward speed at least 140 |
| Actors.EnemyMoved | starwars/main.py:219-223 | the movement of `Enemy.update`: the new phase and position (`EnemyStepKeeps` states it field by field) |
| Actors.EnemyStep | starwars/main.py:218-225 | `Enemy.update`: the moved enemy, or removal when it is more than 80 below, 120 left or 120 right of the screen (`EnemyStepKeeps`) |
| Actors.EnemyStepKeeps | starwars/main.py:218-225 | an update advances the zig-zag phase by `zigzagSpeed * dt` and moves the enemy by its velocity times `dt` plus the sway `sin(phase) * amplitude * dt` at the new phase; health, size, velocity, zig-zag speed and amplitude are kept; it removes the enemy exactly when the moved enemy has left the area around the screen, and otherwise keeps it as moved |
| Actors.Hit | starwars/main.py:227-231 | `Enemy.hit`: the enemy with `damage` less health and, when that is 0 or below, an explosion at its centre, with no guard for an enemy already destroyed (`HitEffect`) |
| Actors.HitEffect | starwars/main.py:227-231 | a hit takes exactly `damage` off the health and changes nothing else; the enemy explodes at its centre exactly when its health reaches 0 or below, and a further hit on a destroyed enemy explodes it again |
| Actors.SpawnInterval | starwars/main.py:464 | `max(0.38, 1.1 - score / 2400)` (`SpawnIntervalFalls`, `SpawnTable`) |
| Actors.Difficulty | starwars/main.py:465 | `1.0 + score / 780`, the difficulty handed to a new enemy |
| Actors.SpawnIntervalFalls | starwars/main.py:464 | the spawn interval is 1.1 s at score 0 and never grows with the score; it is 0.38 s exactly from score 1728 on |
| Actors.SpawnHealth | starwars/main.py:465-468 | the health of an enemy spawned at a score: `2 + int(difficulty * 0.6)` at that score's difficulty, whatever the other draws (`SpawnHealthFormula`) |
| Actors.SpawnHealthFormula | starwars/main.py:465 | an enemy spawned at score `s` has health `2 + floor(0.6 + s/1300)`: at least 2, and at least 3 exactly from score 520 |
| Actors.SpawnTable | starwars/main.py:464-468 | at scores 0, 1200, 2400 and 4800 the interval is 1.1, 0.6, 0.38 and 0.38 s, and spawned health is 2, 3, 4 and 6 |
| Pilot.Clamp | starwars/main.py:319-321 | the clamped position is always inside the allowed box; a position already inside is unchanged, and otherwise each coordinate is set to the nearest edge |
| Pilot.UpdateSpec | starwars/main.py:319-348 | `Player.update` from the steered velocity on: move and clamp, count the invulnerability and the cooldown down, fire if the key is held, and emit a trail particle every 35 ms (`UpdateKeepsValid`, `UpdateFires`, `UpdateTrails`, `UpdateInvulnerable`) |
| Pilot.TryShootSpec | starwars/main.py:350-359 | `try_shoot`: nothing while the cooldown runs, otherwise the cooldown restarted and a volley fired (`TryShootGate`) |
| Pilot.Volley | starwars/main.py:354-359 | the two bolts of a shot, from 18 left and right of the centre and 30 above it, at `(0, -780)` plus the spread (`VolleyShape`) |
| Pilot.AbsorbSpec | starwars/main.py:361-367 | `absorb_hit`: ignored while invulnerable; otherwise one shield less, 1.4 s invulnerability and the knock-back, surviving while a shield is left (`AbsorbCosts`, `ThreeHits`) |
| Pilot.FreshValid | starwars/main.py:241-254 | a new ship is in a valid state with three shields |
| Pilot.UpdateKeepsValid | starwars/main.py:319-340 | an update keeps the ship valid and its shields, takes the steered velocity, and moves the ship to the clamped new position |
| Pilot.UpdateInvulnerable | starwars/main.py:331-332 | the invulnerability timer counts down to 0 and no lower, and while it outlasts the frame a hit is ignored |
| Pilot.UpdateFires | starwars/main.py:338-340 | an update fires exactly when the fire key is held and the cooldown has run out within the frame; a shot is the volley from the ship's new position and restarts the cooldown |
| Pilot.TryShootGate | starwars/main.py:350-359 | while the cooldown runs, `try_shoot` changes nothing and fires nothing; otherwise it fires exactly two bolts and restarts the cooldown at 0.15 s |
| Pilot.VolleyShape | starwars/main.py:353-359 | a volley is two bolts, one left and one right of the centre and 30 above it, each flying upward with damage 1 |
| Pilot.UpdateTrails | starwars/main.py:342-348 | an update emits at most one trail particle, and does so exactly when the trail timer reaches 35 ms |
| Pilot.AbsorbCosts | starwars/main.py:361-367 | an invulnerable ship ignores a hit; otherwise it loses exactly one shield and becomes invulnerable for 1.4 s; the ship stays valid, and it survives exactly when it had at least two shields, i.e. while it has a shield left |
| Pilot.ThreeHits | starwars/main.py:361-367 | from a fresh ship, two hits that land are survived and the third leaves no shield |
| Pilot.Player.constructor | starwars/main.py:235-254 | a new ship has the fresh state and the groups it was given |
| Pilot.Player.Reset | starwars/main.py:289-298 | `reset` returns the ship to the state `__init__` gives |
| Pilot.Player.TryShoot | starwars/main.py:350-359 | the ship and the laser group change exactly as the firing specification says, the bolts being appended in order |
| Pilot.Player.Update | starwars/main.py:300-348 | the ship, the laser group and the trail group change exactly as the update specification says |
| Pilot.Player.AbsorbHit | starwars/main.py:361-367 | the ship changes, and the result is returned, exactly as the absorption specification says |
| GameLoop.WorldValid | starwars/main.py:440-504 | the invariant of play the main loop keeps: the ship valid (0 to 3 shields, timers within their ranges, position in the box), the game over exactly when the shields are gone, non-negative score, spawn timer and game-over clock, every laser's centre inside the 53-pixel band around the screen with damage 1, every enemy with at least 1 health, every explosion and trail particle live; it does not require that a sprite's next update keep it (`TickKeepsValid` proves the invariant is kept) |
| GameLoop.GroupCollide | starwars/main.py:470 | `groupcollide(enemies, lasers, False, True)`: for each enemy in group order, the number of remaining lasers meeting it, and the lasers meeting none; one count per enemy (`CollideLasers`, `CollideCount`) |
| GameLoop.CollideLasers | starwars/main.py:470 | the lasers left after the collision test are exactly those that meet no enemy |
| GameLoop.CollideCount | starwars/main.py:470 | each removed laser is counted against exactly one enemy, so hits plus surviving lasers equal the lasers before |
| GameLoop.StrikeSpec | starwars/main.py:472-481 | the outcome of the hit loop on one enemy in closed form: new health, destroyed or not, 120, 18 or 0 points and the explosions (`StrikeFacts`, `StrikeEnemy`) |
| GameLoop.StrikeFacts | starwars/main.py:471-481 | an enemy in play is destroyed exactly when its hits reach its health; it then scores 120 and makes one explosion, while a hit enemy its hits leave alive scores 18 and keeps at least 1 health |
| GameLoop.StrikeEnemy | starwars/main.py:472-481 | the per-enemy hit loop computes the enemy's new health, whether it survives, its points and its explosions as the closed form says, including the unguarded case of an enemy at 0 or below |
| GameLoop.Resolve | starwars/main.py:471-481 | the loop over the collisions, one enemy at a time in group order: the enemies that stay, the new explosions and the points gained (`ResolveTally`, `ResolveHits`) |
| GameLoop.ResolveTally | starwars/main.py:470-481 | over all hit enemies the points are 120 per destroyed enemy plus 18 per hit enemy its hits leave alive; the group loses exactly the destroyed ones, each leaving one explosion, and every survivor has health at least 1 |
| GameLoop.ResolveHits | starwars/main.py:471-481 | the loop over the collisions, enemy by enemy in group order, yields the enemies, explosions and points of the reference resolution |
| GameLoop.Blasts | starwars/main.py:488-489 | there is one new explosion, at each touching enemy's centre, per touching enemy |
| GameLoop.BlastAll | starwars/main.py:488-489 | the loop adding those explosions produces exactly them, in order |
| GameLoop.StartPhase | starwars/main.py:457-459 | the score raised by `14 * dt` and the ship's update, with its bolts and trail particle added to their groups (`StartKeepsValid`) |
| GameLoop.MovePhase | starwars/main.py:460-462 | the laser, trail and enemy group updates (`MoveKeepsValid`) |
| GameLoop.SpawnPhase | starwars/main.py:463-468 | the spawn timer and, once it reaches the interval for the score, a new enemy at that score's difficulty (`SpawnAddsOne`, `SpawnKeepsValid`) |
| GameLoop.LaserPhase | starwars/main.py:470-481 | the collision of lasers and enemies and its resolution: hit lasers removed, destroyed enemies removed and exploded, points added (`LaserPhaseKeepsValid`) |
| GameLoop.ImpactPhase | starwars/main.py:483-497 | enemies touching the ship removed; unless it is invulnerable, each of them and the ship explode and the ship absorbs a hit, which may end the game (`ImpactOutcome`, `ImpactKeepsValid`) |
| GameLoop.PlaySpec | starwars/main.py:456-497 | a frame while the game is on: the five phases in the loop's order (`PlayKeepsValid`) |
| GameLoop.OverSpec | starwars/main.py:498-502 | a frame after game over: lasers and trails update and the game-over clock runs (`OverKeepsValid`, `TickOverFreezes`) |
| GameLoop.TickSpec | starwars/main.py:448-504 | one pass of the loop: a restart key after game over resets first, then play or the game-over frame, then the explosions update (`TickKeepsValid`, `TickRestarts`, `TickScores`, `TickEndsGame`) |
| GameLoop.NewGameValid | starwars/main.py:415-430 | the starting state, which `reset_game_state` restores, satisfies the invariant of play |
| GameLoop.StartKeepsValid | starwars/main.py:457-459 | the score grows by `14 * dt`, the ship stays valid with its shields, new bolts have damage 1, and trail particles are live |
| GameLoop.MoveKeepsValid | starwars/main.py:460-462 | after the group updates every laser is in the band, every particle is live and every enemy has health |
| GameLoop.SpawnKeepsValid | starwars/main.py:463-468 | spawning keeps the invariant, the ship and the score |
| GameLoop.SpawnAddsOne | starwars/main.py:463-468 | once the timer reaches the interval for the current score it restarts at 0, and exactly one enemy with at least 2 health joins the end of the group; before that only the timer grows |
| GameLoop.LaserPhaseKeepsValid | starwars/main.py:470-481 | the laser hits keep the invariant and the ship, and never lower the score |
| GameLoop.ImpactKeepsValid | starwars/main.py:483-497 | the impacts keep the invariant and the score and cost at most one shield; the game ends only on a landed hit to a ship with exactly one shield, with its game-over clock at 0 |
| GameLoop.ImpactOutcome | starwars/main.py:483-497 | touching enemies always leave the group; while invulnerable, or with nothing touching, nothing else changes; otherwise each touching enemy and the ship explode, one shield is lost, and the game ends exactly when it was the last one |
| GameLoop.PlayKeepsValid | starwars/main.py:456-497 | a frame of play keeps the invariant, raises the score by at least `14 * dt` and costs at most one shield; it ends the game only for a ship with one shield whose invulnerability ran out within the frame |
| GameLoop.OverKeepsValid | starwars/main.py:498-502 | a frame after game over keeps the invariant |
| GameLoop.TickKeepsValid | starwars/main.py:448-504 | every pass of the main loop keeps the invariant of play |
| GameLoop.TickScores | starwars/main.py:457 | while the game is on, the score grows by at least `14 * dt` per frame |
| GameLoop.TickOverFreezes | starwars/main.py:498-502 | after game over and without a restart key, the ship, enemies, score and spawn timer are frozen, the game stays over, and its clock grows by `dt` |
| GameLoop.TickRestarts | starwars/main.py:448-449 | a restart key after game over plays the frame from the fresh game, which is then not over and has at least two shields |
| GameLoop.TickEndsGame | starwars/main.py:491-493 | a frame that ends the game found the ship with one shield and its invulnerability run out, and leaves no shield and the clock at 0 |
| GameLoop.Game.constructor | starwars/main.py:408-418 | the game starts in the starting state with the invariant holding |
| GameLoop.Game.ResetGameState | starwars/main.py:420-430 | `reset_game_state` empties the four groups, resets the ship and zeroes the loop variables |
| GameLoop.Game.Start | starwars/main.py:457-459 | the score and the ship's update change the state as the first phase says |
| GameLoop.Game.Move | starwars/main.py:460-462 | the laser, trail and enemy groups update as the move phase says |
| GameLoop.Game.Spawn | starwars/main.py:463-468 | the spawn timer and the enemy group change as the spawn phase says |
| GameLoop.Game.ResolveLaserHits | starwars/main.py:470-481 | lasers, enemies, explosions and score change as the laser phase says |
| GameLoop.Game.ResolvePlayerImpacts | starwars/main.py:483-497 | ship, enemies, explosions and game-over state change as the impact phase says |
| GameLoop.Game.Play | starwars/main.py:456-497 | a frame of play changes the state exactly as the composition of the phases says |
| GameLoop.Game.Idle | starwars/main.py:498-502 | a frame after game over moves only lasers and trails and runs the game-over clock |
| GameLoop.Game.Step | starwars/main.py:448-504 | one pass of the main loop changes the state exactly as the frame specification says |
| GameLoop.Game.Tick | starwars/main.py:448-504 | a pass of the main loop from a valid state matches the frame specification and leaves the state valid |

## Left out

- Rendering is not modelled: images, the roll animation, the invulnerability flicker, the particle fade, the glow overlay, the HUD, `StarField` and the explosion frames' pixels. None of them changes game state.
- The event loop, the clock and `STARWARS_AUTOQUIT` are not modelled. The frame time and the restart key are inputs, and quitting is not modelled.
- The `random.uniform` draws that affect game state are inputs, with their ranges stated as predicates. That includes the enemy's zig-zag phase in `[0, math.tau]`, with `math.tau` as Python prints it (`6.283185307179586`, the shortest decimal that reads back as that double).
- The thruster particle's colour, drawn with `random.choice`, is not modelled, because it only changes the image.
- Floating-point rounding is not modelled. Timers, positions and the score are exact reals. For example, Python computes `1.1 - 1200/2400` as `0.6000000000000001`, not 0.6. Likewise `2 + int(difficulty * 0.6)` can come out one lower or higher than in exact arithmetic when `difficulty * 0.6` lies within a rounding error of an integer.
- Steering is not modelled: the keys, acceleration, drag, `normalize` and `scale_to_length` of `Player.update`. An update receives the steered velocity as input.
- Pilot.Player.Update: takes the steered velocity as input, so it does not state the speed limit of 460.
- `math.sin` is a function parameter of the frame.
- Collision geometry is not modelled:
  - Which laser rectangles meet which enemy rectangles, and which enemy circles meet the ship's, are function parameters of the frame.
  - `pygame.sprite.groupcollide(enemies, lasers, False, True)` is assumed to go through the enemies in group order. Each enemy takes the overlapping lasers that earlier enemies have not already taken, and those lasers leave the group.
- pygame `Rect` rounding is not modelled. A sprite's rectangle centre is taken to be its exact real-valued position.
- Actors.LaserStepBand: uses the laser's 26-pixel height, which holds only without that rounding.
- GameLoop.Game.ResolveLaserHits: does not model the order in which pygame removes killed enemies while the loop runs. The group is rebuilt once, after the loop, because nothing reads it in between.
- Sprites are values inside the groups, not shared objects. No sprite belongs to two groups, so this loses nothing the code can observe.
- The laser's `damage` field is modelled but never read, as in the code, which calls `enemy.hit()` with its default damage of 1.
- MergeSort.MergeSortPrefix: requires `n <= len(nums)` or `n <= 1`. For any larger `n`, `merge` reads past the end of the list and Python raises `IndexError`. That error path is not modelled.
- The sorts compare through an integer key. Python's rich comparison of arbitrary objects, and comparisons that raise, are not modelled.
- The `__main__` demos of `sorting.py`, and every other file of the repository, are not part of this model.
