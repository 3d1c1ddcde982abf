# Space Invaders simulation core in Dafny

This project models the simulation engine of the browser game in `game.js`
(RalVid/SpaceInvaders). It covers:

- the per-tick `update`;
- the collision pipeline `handleCollisions`, with its four passes in order;
- the player life cycle (`handlePlayerHit`, the game-over latch);
- the enemy formation (sideways sweep, edge drop with cooldown, breach, next wave);
- the mystery-ship scheduler, spawning and bonus;
- the `startGame` reset and level set-up (`createEnemies`, `createShields`);
- shooting with its cooldown (`shoot`, `enemyShoot`);
- the ageing of bullets, explosions and popups.

The module-level variables of the script become the fields of the class
`Game.Game`, except that `lastscore` holds the stored last score (see
"## Left out"). The player object becomes the class `Ship.Player`. Both are
updated in place. Most methods name the exact fields they change in their
`modifies` clauses. `StartGame` (`modifies this`) and `Update`
(`modifies this, player`) touch most of the state and name whole objects.

The loops that update state step by step become loop methods proved equal to
pure folds: the four collision passes, the fleet sweep and drop, the
bullet and explosion ageing, and the breach check. Lemmas about those folds
state what each pass promises. The two one-line filters, `updatePopups`
(game.js:145) and the shooter list (game.js:379), become functions
(`Ageing.AgePopups`, `Entities.AliveEnemies`).

Each tick's randomness is an explicit parameter (`Game.Rolls`: four reals in
`[0, 1)`), as are the keyboard state (`Game.Input`) and the frame scale `dt`
(`delta * 60`). The class invariant `Game.Game.Valid` is split by concern:

- `ScoreOk`: `0 <= score <= highscore`;
- `LivesOk`: lives in `0..3`, game over exactly at zero lives, blink within its window;
- `WaveOk`: the formation speed is the one of the current wave;
- `FleetOk`: direction is ±1 and the drop cooldown is within bounds;
- `MysteryOk`: without a ship the countdown is running, and the tone only plays while a ship flies;
- `ShipOk`: the fire cooldown is within bounds.

Every tick preserves the invariant.

Behaviour of the code that the model keeps as written:

- The `forEach`-with-`splice` loops skip the element after a removed one (game.js:390-394). The skipped element stays in the list without moving (`Ageing.Sweep`).
- The edge drop lowers every enemy, dead ones too (game.js:374).
- The mystery countdown is `floor((20 + 20r) * 60)` for `r` in `[0, 1)` (game.js:38). Over exact reals it lies in `1200..2399`; see "## Left out" for doubles.
- The mystery ship leaves once its left edge `x` passes 500, the playfield's width (game.js:359).
- Hits during the blink window still cost a life. `handlePlayerHit` checks only `gameOver` (game.js:224-228), and the enemy-bullet pass calls it for every overlapping bullet (game.js:449-455). Several hits can land in one tick.
- After game over, further hits in the same tick change nothing (game.js:224).

## Model

| member | source | states |
|---|---|---|
| Geometry.OverlapsSymmetric | game.js:414-418 | the strict axis-aligned overlap test is symmetric in its two rectangles |
| Geometry.EdgeContactIsNoOverlap | game.js:435-437 | rectangles that only touch along an edge do not collide (the comparisons are strict) |
| Chance.MysteryFrames | game.js:37-39 | a fresh mystery countdown, evaluated over exact reals, lies in `[1200, 2399]` ticks |
| Chance.Bonus | game.js:419 | the mystery bonus is one of 50, 100, 150, 200, 250 |
| Chance.BonusBand | game.js:419 | each fifth of the random unit interval yields exactly one bonus, `50 * (k + 1)`, so the five bonuses are equally likely |
| Chance.PickIndex | game.js:380 | `floor(r * n)` is a valid index into the shooter list |
| Entities.Blasts | game.js:440 | as many explosions as consumed bullets |
| Entities.BlastsAt | game.js:440 | explosion `i` is a fresh explosion at the corner of consumed bullet `i`, so the explosions follow the bullets' order |
| Entities.EnemyShot | game.js:329-335 | the enemy shot is centred on the shooter's column, starts at its bottom edge and has positive speed (enemy shots fall by it) |
| Entities.CountAlive | game.js:407 | the living count is zero exactly when `enemies.every(e => !e.alive)` holds |
| Entities.CountAliveKill | game.js:438 | killing one living enemy lowers the living count by exactly one |
| Entities.AliveEnemies | game.js:379 | the shooter list holds exactly the living enemies, in formation order: as many as `CountAlive`, each alive, and a subsequence of the formation |
| Level.EnemyGrid | game.js:279-287 | a wave's grid has `(2 + wave) * (6 + wave)` enemies, all alive |
| Level.EnemyGridCell | game.js:279-287 | the enemy in row `r`, column `c` is at index `r * cols + c`, centred in its column gap, at `y = 40r + 30` |
| Level.Shields | game.js:288-300 | `createShields` yields 5 × 4 × 6 = 120 blocks |
| Level.ShieldsCell | game.js:288-300 | block `(ry, cx)` of shield `i` is at index `24i + 6ry + cx`, at the shield's left edge plus its cell offsets, 120 units above the bottom |
| Ageing.Sweep | game.js:390-394 | a `forEach`-with-`splice` pass never lengthens its list |
| Ageing.SweepInPlace | game.js:390-394 | the index loop that splices while iterating gives exactly `Sweep` |
| Ageing.SweepSparesSuccessor | game.js:390-394 | when an element leaves, its successor is kept unadvanced even if it would leave too |
| Ageing.SweepAdvancesAllWhenNoneLeave | game.js:390-394 | when nothing leaves, every element advances and stays, in order |
| Ageing.SweepResultFromInput | game.js:390-394 | every remaining element is either an input element left unadvanced or an advanced input element still inside the playfield |
| Ageing.Older | game.js:145 | every popup is aged by exactly one tick and none is dropped |
| Ageing.AgePopups | game.js:145 | `updatePopups` keeps a subsequence of the aged list, as long as the number of popups younger than 60 (`CountShown`), each at most 60 ticks old: exactly the aged popups that stay shown, duplicates included, in input order |
| Ageing.PopupLifetime | game.js:144-145 | a popup added with frame 0 is shown, aged `k`, for `k <= 60` ticks and is gone after that |
| Basics.FirstMatchIsFirst | game.js:434-443 | the scan stops at the first element that matches; with no match, no element matches |
| Basics.FindFirst | game.js:462-470 | the scanning loop returns the first matching index, if any |
| Collisions.ResolveMysteryHits | game.js:413-430 | the filter loop over player bullets computes exactly `MysteryFold` |
| Collisions.MysteryPassShip | game.js:414-426 | the ship is gone exactly when a bullet hit it; otherwise it is untouched |
| Collisions.MysteryFold | game.js:413-430 | a hit removes the ship, and exactly one bullet is consumed on a hit, none otherwise |
| Collisions.MysteryPassHitsFirstOverlap | game.js:413-430 | with no ship nothing changes; otherwise only the first overlapping bullet hits, and it is removed; every other bullet survives in order |
| Collisions.ResolveEnemyHits | game.js:433-445 | the filter loop with the inner enemy scan computes exactly `EnemyFold` |
| Collisions.EnemyFold | game.js:433-445 | every bullet is either kept or spent, and the formation keeps its size |
| Collisions.EnemyPassAccounting | game.js:433-445 | every bullet is either kept or spent, and each spent bullet kills exactly one living enemy |
| Collisions.EnemyPassNoRevival | game.js:434-438 | enemies do not move during the pass, and none comes back to life |
| Collisions.EnemyPassSurvivors | game.js:433-445 | kept and spent bullets keep their input order, and a kept bullet overlaps no enemy still alive |
| Collisions.ResolvePlayerHits | game.js:448-457 | the filter loop over enemy bullets computes exactly `PlayerFold` |
| Collisions.PlayerFold | game.js:448-457 | every enemy bullet either survives or counts as one hit |
| Collisions.PlayerPassAccounting | game.js:448-457 | exactly the bullets overlapping the ship are consumed, one hit each; the others survive in order; there are no hits exactly when no bullet overlaps |
| Collisions.ResolveShieldHits | game.js:460-472 | `hitShields` computes exactly `ShieldFold` |
| Collisions.ShieldFold | game.js:460-474 | each consumed bullet removes one block and leaves the bullet list |
| Collisions.ShieldPassAccounting | game.js:460-474 | each consumed bullet removes exactly one block; the remaining blocks, the surviving bullets and the consumed bullets each keep their input order |
| Collisions.ShieldPassClears | game.js:460-474 | no surviving bullet overlaps any remaining block |
| LifeCycle.Hit | game.js:223-242 | after game over a hit changes nothing; otherwise lives fall by one (floor 0), blink restarts at 30, and the game ends exactly at zero lives, recording the last score and stopping the tone |
| LifeCycle.GameOverLatch | game.js:224 | once the game is over, any number of further hits changes nothing and adds no explosion |
| LifeCycle.RepeatedHits | game.js:223-242 | `n` hits from `l` lives leave `max(l - n, 0)` lives, end the game exactly when `n >= l`, and register `min(n, l)` explosions |
| Fleet.MoveFleet | game.js:367-372 | the sweep loop moves only the living enemies by `dx`, and reports edge contact exactly when a moved living enemy touches an edge |
| Fleet.Lowered | game.js:374 | every enemy, dead ones included, is 10 lower and otherwise unchanged |
| Fleet.DropFleet | game.js:374 | the drop loop computes exactly `Lowered` |
| Fleet.FleetStep | game.js:366-375 | the formation keeps its size, and a valid direction (±1) and cooldown (`0..10`) stay valid |
| Fleet.FleetStepEffect | game.js:366-375 | a tick drops exactly when the cooldown has run out and an edge is touched; a drop reverses the direction, lowers every enemy by 10 and restarts the cooldown at 10; otherwise only living enemies move, sideways, and the cooldown counts down |
| Fleet.NoDropWhileCooling | game.js:366-375 | with cooldown `c`, no drop comes before tick `c - 1` |
| Fleet.DropsAreSpaced | game.js:366-375 | whatever the edge contacts, two drops are at least 10 ticks apart |
| Ship.Player.constructor | game.js:258-265 | the new ship is 50 × 20, centred, 60 above the bottom edge, with speed 5, no bullets, no cooldown, no blink |
| Ship.Player.Shot | game.js:319-325 | the shot starts at the ship's top edge with its left edge 2 left of the ship's centre (so its own centre is 1 right of the ship's), with positive speed (player shots rise by it) |
| Ship.Player.Shoot | game.js:317-328 | with the cooldown run out, the 6 × 16 `Shot` at speed 7 is added and the cooldown becomes 15; otherwise nothing changes |
| Ship.Player.Control | game.js:384-387 | left, then right, each only while not past that edge; fire if asked; then the cooldown counts down |
| Ship.Steered | game.js:384-385 | with no key held the ship stays; holding only left never moves it right, and holding only right never moves it left |
| Ship.NoShotWhileCooling | game.js:318 | with cooldown `c`, no shot leaves before tick `c` |
| Ship.ShotsAreSpaced | game.js:317-328 | however the fire key is held, two shots are at least 15 ticks apart |
| Game.Volley | game.js:378-381 | without a roll under 0.02 or without a living enemy nothing is fired; otherwise exactly one shot is added, and any added shot is `EnemyShot` of a living enemy of the formation |
| Game.MysteryShipFor | game.js:304 | a new mystery ship starts wholly off-screen to the left, at speed at least 2 |
| Game.SchedulerStep | game.js:351-363 | one tick keeps the scheduler invariant; a spawned ship is this wave's ship with the tone on; a retired ship leaves a countdown in `1200..2399` and silences the tone; a ship in flight moves right |
| Game.BreachFold | game.js:399-404 | the breach loop keeps the formation's size |
| Game.BreachAccounting | game.js:399-404 | the breach loop kills exactly the living enemies at or below the player's row, each hitting the player once |
| Game.Game.constructor | game.js:245-275 | page load then `startGame`: a valid state with the stored high and last scores, score 0, three lives, wave 1 at speed 1, direction right, drop cooldown 0, no ship, a fresh countdown, tone off, the ship at its start, the wave-1 grid, the 120 shield blocks, and no bullets, explosions or popups |
| Game.Game.StartGame | game.js:245-275 | keeps the high and last scores; score 0, three lives, wave 1 at speed 1, direction right, drop cooldown 0, no ship, a fresh countdown, tone off, a new ship at its start, the wave-1 grid, the 120 shield blocks, and no bullets, explosions or popups; the invariant holds |
| Game.Game.ResetRound | game.js:246-256 | not over, score 0, three lives, direction right, drop cooldown 0, no ship, a fresh countdown, tone off, and no enemy bullets, explosions or popups |
| Game.Game.SetUpWave | game.js:278-300 | wave `w`: its speed, a fresh `createEnemies` grid and fresh shields |
| Game.Game.HandlePlayerHit | game.js:223-242 | the life state becomes `Hit` of the old one, and an explosion is added only if the game was not already over |
| Game.Game.ApplyPlayerHits | game.js:448-455 | `n` hits in one pass: the life state is `Hits(n)`, with one explosion per registered hit; lives never rise; the game-over latch holds |
| Game.Game.LivesAfterHits | game.js:227-232 | any run of hits from a valid life state keeps lives in range and game over ⇔ no lives, records the last score when the game ends, and changes nothing after game over |
| Game.Game.TickMystery | game.js:351-363 | the scheduler takes one `SchedulerStep`: without a ship the countdown falls by one and a ship of this wave spawns at zero; with a ship it flies right and, once past the width, leaves with a fresh countdown and the tone off |
| Game.Game.FleetTick | game.js:366-375 | the formation, direction and cooldown become `FleetStep` of the old ones |
| Game.Game.EnemyFire | game.js:378-381 | with probability 0.02 and any enemy alive, the picked living enemy fires one 4 × 10 shot from its bottom centre; otherwise nothing |
| Game.Game.AgeEntities | game.js:389-394 | player bullets rise, enemy bullets fall and explosions age, each list by `Sweep` |
| Game.Game.StrikeMystery | game.js:413-430 | pass 1: survivors and ship follow `MysteryFold`; on a hit the score rises by the bonus, the high score follows, a popup and an explosion appear, the countdown restarts and the tone stops |
| Game.Game.AwardMystery | game.js:419-426 | the effects of shooting the ship down |
| Game.Game.AddScore | game.js:420-421 | the score rises by the points and the high score follows it upwards |
| Game.Game.StrikeEnemies | game.js:433-445 | pass 2: bullets and enemies follow `EnemyFold`; the score rises by 10 per kill; one explosion per spent bullet |
| Game.Game.StrikePlayer | game.js:448-457 | pass 3: overlapping enemy bullets are consumed, and each one hits the player |
| Game.Game.StrikeShields | game.js:459-474 | pass 4: player bullets, then enemy bullets, chip blocks by `ShieldFold`, with one explosion per consumed bullet |
| Game.Game.HandleCollisions | game.js:411-475 | the four passes keep the invariant; lives never rise, score and high score never fall, and the last score is recorded if the game ends |
| Game.Game.StrikeInvaders | game.js:412-445 | pass 1 then pass 2: bullets, ship and enemies follow `MysteryFold` then `EnemyFold`; the score rises by the bonus on a hit plus 10 per kill and the high score follows; the countdown restarts and the tone stops on a hit; one popup for a hit and one explosion per consumed bullet, in pass order; score ≤ high score, and neither falls |
| Game.Game.StrikeDefences | game.js:447-474 | passes 3 and 4 keep the life invariant, and lives never rise |
| Game.Game.CheckBreach | game.js:399-404 | enemies, life state and explosions follow `BreachFold`; afterwards no living enemy is at the player's row |
| Game.Game.NextWave | game.js:407 | with every enemy dead: wave + 1, its speed, a fresh grid and shields; score, lives, direction and drop cooldown are unchanged; otherwise nothing changes |
| Game.Game.Update | game.js:345-408 | nothing changes once the game is over; otherwise the invariant holds, score and high score never fall, lives never rise, the wave rises by at most one, and game over records the last score |
| Game.Game.Advance | game.js:347-394 | the moving phases of a tick keep the invariant |
| Game.Game.AdvanceTimers | game.js:347-375 | blink counts down to zero, popups age by `AgePopups`, the scheduler takes one `SchedulerStep` and the formation one `FleetStep`; their parts of the invariant are kept |
| Game.Game.AdvanceShots | game.js:378-394 | the ship moves by `Steered` and the fire cooldown becomes `NextFireCooldown`, staying in range |
| Game.Game.Resolve | game.js:396-404 | collisions then breaches keep the invariant; lives never rise; score never falls |

## Left out

- Rendering (`draw` and the sprite sheets), the DOM, the menu and the touch controls: no simulation state depends on them.
- Keyboard input: it is reduced to three booleans per tick (`Game.Input`).
- Audio, except for one flag: `ufoSounding` stands for the `ufoOsc` handle. It is set when the ship spawns, while the code creates it asynchronously in a promise (game.js:305-313). The tone's frequency updates (game.js:355-358) and all one-shot sounds are not modelled.
- The late tone: when a ship spawns (game.js:352) and the last life is lost later in the same tick, `handlePlayerHit` finds no `ufoOsc` yet (game.js:231). The promise then starts the tone after game over, and it plays on until the next `startGame` stops it (game.js:256). The model sets and clears the flag synchronously, so it cannot show this. The facts "game over ⇒ tone off" (`LifeCycle.Hit`, `Game.Game.Update`) hold for the flag at tick boundaries, not for the audio.
- `localStorage`: the page-load reads (game.js:134-135) become constructor parameters. The re-read of the high score in `startGame` (game.js:249) becomes keeping the `highscore` field: every change of the field is stored at once (game.js:421, 439), so field and storage agree. The `lastscore` field stands for the stored last score, not for the script's `lastscore` variable. That variable is assigned only at page load (game.js:135). The field records the write of `score` to storage at game over (game.js:232). No other storage write is modelled.
- `requestAnimationFrame`, `performance.now` and the timer that returns to the menu after game over (game.js:236-240): time enters only as `dt`.
- `Math.random`: each call becomes a real parameter in `[0, 1)`.
- Floating point: positions and the countdown formula use exact reals, so rounding is not modelled. In doubles, the two largest values `Math.random` can return below 1 (`1 - 2^-52` and `1 - 2^-53`) make the countdown `floor((20 + 20r) * 60)` round up to 2400. The `<= 2399` bounds of `Chance.MysteryFrames` and `Game.SchedulerStep` hold over reals only. The invariant uses only the lower bound (`timer >= 1` without a ship).
- The `enemyCols` global: it is written by `createEnemies` but never read by the simulation.
- `addExplosion`: only the explosion record is modelled. Its sound is not.
- Game.Game.Update: it states the invariant and the monotonicity facts only. The exact effect of each phase is stated by the phase methods it calls (`TickMystery`, `FleetTick`, `StrikeMystery`, …).
- Game.Game.HandleCollisions: it states the invariant and the monotonicity facts only. The exact effect of each pass is stated by `StrikeMystery`, `StrikeEnemies`, `StrikePlayer` and `StrikeShields`.
- Game.Game.StrikeEnemies: the high score is compared with the score once after the pass, while the code compares after every kill. Points are never negative, so the final high score is the same.
- Game.Game.StrikeDefences: it states the life invariant, that lives never rise, and the game-over record only. The exact effect of its two passes is stated by `StrikePlayer` and `StrikeShields`, which it calls in order; repeating those contracts here makes the proof too costly for the verifier.
- Game.Game.Resolve: it states the invariant and the monotonicity facts only. The exact effect is stated by the passes it runs (`StrikeInvaders`, `StrikePlayer`, `StrikeShields`) and by `CheckBreach`.
- Game.Game.Advance: it states the invariant only. The exact effect is stated by `AdvanceTimers`, `EnemyFire`, `Ship.Player.Control` and `AgeEntities`.
- Game.Game.AdvanceShots: it states the steering and the fire cooldown, but not the new bullet and explosion lists. Those are stated by `EnemyFire` (`Volley`) and `AgeEntities` (`Sweep`), which it calls in order.
