# Space shooter simulation core, modelled in Dafny

This project models the per-frame simulation of a browser space shooter
(`game.js`). The ship follows the pointer and moves up and down with the
arrow keys. Holding the fire key fires a five-bullet spread shot every
50 ms, and a homing rocket is launched every 300 ms when there is an enemy
to aim at. Enemies spawn at the top at a rate that grows with the level
and fall at their own speed. Each one that leaves through the bottom, or
that rams the ship, costs a life. A bullet kill is worth 10 points and a
rocket kill 20. Explosions and "LEVEL n!" banners count down and vanish.
The level is one more per thousand points, counting from 20.

The files:

- `entities.dfy` (`Entities`): the records (player, bullet, rocket, enemy, explosion, banner), the
  field, the boxes and their strict overlap test, and the per-entity steps (motion, ticking, spawning).
- `sweeps.dfy` (`Sweeps`): the shape of the game's clean-up loops. A backward walk updates each element
  and splices out the ones that fail a test. It is specified by the function `Sweep`.
- `losses.dfy` (`Losses`): the two passes that cost lives (enemies falling out, enemies ramming the ship).
  Both stop as soon as lives reach zero. They are specified by `Cull`.
- `targeting.dfy` (`Targeting`): the rocket's nearest-enemy search and its homing step.
- `collisions.dfy` (`Collisions`): the bullet-enemy and rocket-enemy passes (`ShotPass`) and the kill
  bookkeeping (`Kill`: blast, splice, points, level, banner).
- `effects.dfy` (`Effects`): what the countdown of explosions and banners leaves.
- `shooter.dfy` (`Shooter`): the game itself, as the class `Game`. Its fields are the script's globals.
  Its methods update them in place, loop by loop as the script does. Each method is proved against the
  specification functions above.

`Game.Valid()` is the invariant every operation keeps:
- score and level are not negative;
- a running session has lives left;
- the pointer is inside its clamp band, [20, 780];
- the ship is inside the field horizontally; vertically its top edge is in [-5, 565], so the
  40-pixel ship may stand out one 5-pixel step above the top or below the bottom;
- no enemy is below the bottom edge;
- every explosion and banner still has life.

## Model

| member | source | states |
|---|---|---|
| Entities.Spawned | game.js:159-172 | a spawned enemy starts just above the field, in a column inside it, with speed in [2 + level/2, 4 + level/2) |
| Shooter.ClampPointer | game.js:62-69 | the clamped pointer keeps the whole ship on the field; it is the pointer itself inside, the nearer bound outside |
| Shooter.MovePlayer | game.js:174-184 | the ship is centred under the pointer; it moves vertically by at most one speed step, not at all without arrow keys, and never leaves the band it started in |
| Shooter.FallOutcome | game.js:281-295 | after the falling pass no enemy is below the field; lives drop by at most one per enemy and not below zero from positive lives, and stay positive unless the session ended |
| Shooter.RamOutcome | game.js:370-393 | after the ramming pass no enemy is below the field and every crash blast is alive; lives drop by at most one per enemy |
| Shooter.VolleyOutcome | game.js:299-367 | a shot pass keeps enemies on the field, every explosion and banner alive, and score and level not negative |
| Shooter.Game.constructor | game.js:15-45 | the state before the first session: not running, score 0, 3 lives, level 0, everything empty, ship at its start position (400, 540), with its left edge at mid-field, pointer at 400 |
| Shooter.Game.KeyDown | game.js:47-52 | the key is marked held; auto-fire turns on exactly for the fire key in a running session |
| Shooter.Game.KeyUp | game.js:54-59 | the key is marked released; releasing the fire key turns auto-fire off |
| Shooter.Game.MouseMove | game.js:62-69 | while running the pointer becomes the clamped offset; otherwise it is unchanged |
| Shooter.Game.StartGame | game.js:72-94 | a session starts: running, score 0, 3 lives, level 20, all entity arrays empty, ship back at (400, 540), pointer at 400, auto-fire off |
| Shooter.Game.ClearField | game.js:77-81 | all five entity arrays are emptied |
| Shooter.Game.RestartGame | game.js:96-102 | the same reset, except that the level is the one the game had before |
| Shooter.Game.GameOver | game.js:104-109 | the session stops, and the model invariant still holds |
| Shooter.Game.ChangeLevel | game.js:117-120 | the level moves by delta, clamped at 0 |
| Shooter.Game.Shoot | game.js:122-142 | exactly five bullets are appended after those in flight, one per spread velocity, all from the ship's nose |
| Shooter.Game.ShootRocket | game.js:144-157 | one homing rocket is appended exactly when some enemy exists |
| Shooter.Game.CreateEnemy | game.js:159-172 | one enemy is appended exactly when the spawn draw is below 0.01 + 0.005 * level |
| Shooter.Game.AutoFire | game.js:186-193 | a spread shot and a clock reset exactly when auto-fire is on, the session runs and at least 50 ms have passed; otherwise nothing changes |
| Shooter.Game.AutoLaunch | game.js:195-202 | a rocket try and a clock reset exactly when the session runs and at least 300 ms have passed, even with no enemy to aim at; otherwise nothing changes |
| Shooter.Game.UpdatePlayer | game.js:174-203 | the ship moves as MovePlayer says, then the auto-fire step, then the auto-rocket step |
| Shooter.Game.UpdateBullets | game.js:205-218 | the bullets become the Sweep of the old ones under one frame of motion, keeping exactly those still on the field |
| Shooter.Game.UpdateRockets | game.js:220-279 | the rockets become the Sweep of the old ones under one frame of homing against the current enemies, keeping exactly those still on the field |
| Shooter.Game.UpdateEnemies | game.js:281-295 | enemies, lives and the running flag become the falling Cull of the old enemies, which stops at the first exit that leaves no lives |
| Shooter.Game.ShowLevelUpEffect | game.js:405-413 | a 60-frame banner for the current level is appended |
| Shooter.Game.ApplyKill | game.js:306-325 | one kill applied to the game: the tally becomes Kill of the old tally |
| Shooter.Game.CollideBullets | game.js:299-331 | the bullets and the tally become ShotPass of the old bullets against the old tally, with 10 points, a radius-20 blast and 10 frames per kill |
| Shooter.Game.CollideRockets | game.js:334-367 | the same for rockets, with 20 points, a radius-50 blast and 25 frames per kill |
| Shooter.Game.CollideShots | game.js:299-367 | the invariant is kept; the bullets, the rockets and the tally become the bullet pass, then the rocket pass over the tally the bullets left |
| Shooter.Game.Crash | game.js:376-386 | the rammed enemy is spliced out, a crash blast is appended at its centre, and a life is lost |
| Shooter.Game.CollidePlayer | game.js:370-393 | enemies, lives, explosions and the running flag become the ramming Cull of the old enemies; lives drop by at most one per enemy and by at most one below zero |
| Shooter.Game.CheckCollisions | game.js:297-394 | the new state is the bullet pass, then the rocket pass over what it left, then the ramming pass over the enemies left |
| Shooter.Game.UpdateExplosions | game.js:396-403 | the explosions become their Sweep under a one-frame countdown, keeping those with life left |
| Shooter.Game.UpdateLevelUpEffects | game.js:415-423 | the banners become their Sweep under a one-frame countdown with the fade recomputed, keeping those with life left |
| Shooter.Game.Advance | game.js:582-585 | the movement half of a frame keeps the invariant, leaves every shot on the field and the lives not negative |
| Shooter.Game.Engage | game.js:586-587 | the spawn and collision half keeps shots on the field, lowers neither score nor level, and loses at most one life beyond zero |
| Shooter.Game.Fade | game.js:588-589 | the two countdowns, one after the other |
| Shooter.Game.Update | game.js:579-590 | a frame does nothing unless running; after it every bullet and rocket is on the field, score and level have not dropped, and lives are at least -1 |
| Sweeps.Sweep | game.js:206-217 | a backward update-and-splice walk never leaves more elements than it started with |
| Sweeps.SweepKeepsExactly | game.js:206-217 | the walk keeps exactly the elements whose updated value passes the test, each updated once, in their original order; the rocket, explosion and banner loops (274-277, 397-402, 416-422) have the same shape |
| Sweeps.SweepAllPass | game.js:214-216 | every element a walk keeps passes its test |
| Targeting.Nearest | game.js:224-240 | a target index exists exactly when there are enemies, and it indexes one |
| Targeting.NearestIsFirstMinimum | game.js:226-240 | the chosen enemy is at minimal distance, and every enemy before it is strictly farther, so ties go to the first |
| Targeting.FindNearest | game.js:226-240 | the search loop returns Nearest, with its minimality and first-index properties |
| Collisions.Kill | game.js:306-325 | a kill removes exactly one enemy and adds the weapon's points |
| Collisions.LevelForMonotone | game.js:321 | a higher score never earns a lower level |
| Collisions.KillEffects | game.js:306-325 | a kill appends one blast of the weapon's kind; it raises the level to the one the new score earns if that is higher, with a banner exactly then |
| Collisions.KillRemovesOnly | game.js:316-317 | the enemies before j keep their places, those after j move down by one, and every enemy left was there before |
| Collisions.LastOverlap | game.js:300-305 | the enemy found by the inner loop indexes the list |
| Collisions.LastOverlapIsLast | game.js:300-305 | the enemy found overlaps the shot and no later one does; when none is found, none overlaps |
| Collisions.FindHit | game.js:300-330 | the inner search loop with its break returns LastOverlap |
| Collisions.ShotPass | game.js:299-331 | a shot pass never adds shots |
| Collisions.ShotPassCounts | game.js:299-331 | every kill removes exactly one shot and one enemy, adds one blast and exactly the weapon's points |
| Collisions.ShotPassBlasts | game.js:308-313 | the old explosions are kept at the front, and every blast added is of the weapon's kind |
| Collisions.ShotPassRemovesOnly | game.js:316-317 | every shot and enemy left was there before (order and which ones stay: the next three rows) |
| Collisions.ShotsKeptInOrder | game.js:299-316 | the shots a pass leaves are the old shots at the kept indices, which ascend, so the survivors keep their order |
| Collisions.ShotPassKeepsExactly | game.js:299-316 | shot i stays exactly when its box overlaps none of the enemies that the shots after it, visited first, left standing |
| Collisions.ShotPassSplicesEnemies | game.js:316-317 | the enemies a pass leaves are the old enemies at ascending indices, in order, one fewer for every shot that hit |
| Collisions.ShotPassKeeps | game.js:316-317 | a property every shot had still holds of every shot left |
| Collisions.ShotPassLevel | game.js:321-325 | the score never drops; with kills the level is max(old level, floor(score/1000) + 20); without kills nothing changes |
| Collisions.ShotPassKeepsBanners | game.js:321-325 | the banners already showing are kept, in order, at the front |
| Collisions.ShotPassBanners | game.js:405-413 | every banner a pass appends has a 60-frame life |
| Collisions.ShotPassLevelUp | game.js:321-325 | the level never drops, a banner is appended exactly when it rose, and the last one shows the new level |
| Collisions.TwoVolleys | game.js:297-367 | bullets then rockets: the score grows by 10 per bullet hit and 20 per rocket hit; the level never drops and after a kill is max(old level, floor(score/1000) + 20); without kills nothing changes; shots left stay on the field |
| Collisions.WreckageGrows | game.js:376-381 | one more ram appends one crash blast to the explosions |
| Losses.CullCounts | game.js:281-295 | each removal costs exactly one life and every removed enemy cost one; the pass ends the session exactly when a removal left no lives; from positive lives it never goes below zero |
| Losses.CullSurvivors | game.js:281-295 | every surviving enemy was never reached or did not cost a life |
| Losses.RammingOnlyRemoves | game.js:370-393 | the ramming pass moves no enemy: every survivor was there before |
| Losses.CullCompletes | game.js:281-295 | a pass that does not end the session is the Sweep that drops every enemy that cost a life |
| Losses.StopIndex | game.js:283-292 | the index where a pass that ends the session stops lies within the list |
| Losses.CullStopsAt | game.js:283-292 | the enemy at the stop index cost a life and was the last one removed |
| Losses.CullStopsFront | game.js:281-295 | behind the stop index the enemies were swept, and in front of it they are left exactly as they were |
| Effects.ExplosionsCountdown | game.js:396-403 | the explosions left are exactly those whose life was above one, in their old order, each one frame shorter and still alive |
| Effects.BannersCountdown | game.js:415-423 | the banners left are exactly those whose life was above one, in order, one frame shorter, with alpha equal to new life / 60, and nothing else changed |

## Left out

- The page and the UI are not modelled: the element lookups, `updateUI`, the start and game-over screens,
  the `draw*` functions, `console.log`, and the final `updateUI()` call at load. None of them changes the
  simulation state.
- `gameLoop` and `requestAnimationFrame` are not modelled: the schedule of frames is left to the caller.
  `startGame` calls `gameLoop()` itself, so the real game runs one frame right away and adds another
  animation chain on every start. `restartGame` therefore puts the old level back only after that first
  frame. The model's `StartGame` and `RestartGame` do the state reset alone, with no frame.
- `Math.random()` is not modelled. The three draws of `createEnemy` are parameters in [0, 1).
- `Date.now()` is the parameter `now`. `updatePlayer` reads the clock twice, once per cooldown;
  the model reads one value for both.
- The `mousemove` event's `clientX - rect.left` is not modelled. The handler takes the offset as a parameter.
- Trigonometry and square roots are not computed:
  - the five spread velocities `(sin a * 8, -cos a * 8)` are the class constant `spread`;
  - the normalised rocket step is the class constant `steer`;
  - `atan2` and `-pi/2` are kept symbolically as `Heading`;
  - the nearest-enemy search compares squared distances, which picks the same enemy.
- Floating point is modelled as reals: no rounding, NaN or Infinity.
  - `speedX || 0` is modelled as adding `speedX`; the two differ only for NaN.
  - The search's initial `Infinity` is modelled as "no target yet".
- The `bullets[i] && enemies[j]` guards always hold in the model, because every index is in range.
- Colours, the banner's text and each entity's fixed width and height are not fields; the widths and
  heights are constants.
- Shooter.Game.Update: states the invariant, the lives bound and what holds of shots, score and level. It
  does not state the whole new state; the stage methods `Advance`, `Engage` and `Fade` and the methods
  they call state it piece by piece.
- Shooter.Game.Advance: states only what `Update` needs; `UpdatePlayer`, `UpdateBullets`, `UpdateRockets`
  and `UpdateEnemies` state their exact effects.
- Shooter.Game.Engage: states only what `Update` needs; `CreateEnemy` and `CheckCollisions` state their
  exact effects.

What the code does, as written: when the falling pass ends the session, `update` still runs
`createEnemy` and `checkCollisions` in the same frame. A ram in that frame takes lives to -1, and shots
can still score. The model follows the code. `Update` promises only that lives stay at least -1.
