# js-roguelike-game: a verified model of the game simulation

The game is a browser dungeon crawler (static/js/game.js). The player walks a 40 x 28 tile
cellar and shoots. Dragons spawn every ten seconds, home in on the player, touch them and
shoot fireballs at them. Every third kill advances the round, up to round 3, and each round
brings stronger dragons and a stronger weapon. When the player's health runs out the game
ends, and the score and the elapsed time (MM:SS:mmm) are submitted once.

This project models the simulation core of that file in Dafny:

- The global mutable state is one class, `Game.World`. Its fields are the player, the enemy
  array, both projectile pools, `gameState`, the animation counters, the camera and the
  fire-key latch.
- Its methods are the frame updates, written as the source writes them: in place,
  last-to-first loops with splicing, early returns on game over.
- Each loop is proved equal to a reference function over the values it starts from
  (module `Combat` for the passes, `Spawning` for the placement loop). The properties of
  the game are then proved about those functions.
- The world invariant `Valid` holds after every operation. It says:
  - the kill counters, the round and the score agree;
  - the animation counters follow their tick count;
  - the player's box covers no solid tile;
  - every enemy has the stats of the round it was spawned in;
  - the camera stays on the map;
  - at most one score/time pair is submitted per game.

The source's external inputs become parameters:

- `Date.now()` becomes `now`.
- The `Math.random()` draws of `spawnEnemy` become `Draw` records.
- The key flags become an `Input` record.
- Each enemy's homing displacement and aim become an `EnemyStep`.
- The `setTimeout` that clears the player's invulnerability becomes the method
  `ClearInvulnerable`.
- The score and time `fetch` calls become a log of `Submission` payloads.

Modules:

- `Tiles`: the map, tile codes, `checkTileCollision`.
- `Geometry`: `checkCollision`.
- `Config`: the enemy and weapon tables.
- `Entities`: the records and their one-step motion.
- `Movement`: keys, facing, axis-separated sliding.
- `Animation`: the animation clock.
- `Camera`: the camera clamp.
- `TimeFormat`: MM:SS:mmm formatting and its inverse.
- `BasePath`: `getAppBasePath`.
- `Spawning`: spawn placement.
- `Combat`: reference functions for the passes.
- `Game`: the world and its update methods.

## Model

| member | source | states |
|---|---|---|
| Tiles.CheckTileCollision | static/js/game.js:778-795 | true exactly when some cell in the covered row and column range lies inside the 28 x 40 grid and holds a solid code (TileBoxBlocked) |
| Tiles.TilesetCollisionClasses | static/js/game.js:788 | codes 0, 1, 2 and 23 (spikes) never block; walls 10-17, the chest 21 and the torch 24 do |
| Tiles.OffMapBoxIsFree | static/js/game.js:786 | cells outside the grid never count, so a box wholly off the map is free |
| Tiles.SingleTileBox | static/js/game.js:778-795 | a 16 x 16 box aligned on tile (row, col) is blocked iff that tile is solid |
| Tiles.CellOfTile | static/js/game.js:779-782 | the first and the last world coordinate of tile k both lie in tile k |
| Geometry.OverlapsSymmetric | static/js/game.js:678-683 | the overlap test does not depend on the order of its arguments |
| Geometry.TouchingBoxesDoNotOverlap | static/js/game.js:678-683 | the inequalities are strict: boxes that only share an edge do not collide |
| Geometry.OverlapsIffCommonPoint | static/js/game.js:678-683 | for boxes of positive size, the test holds iff the boxes share an interior point (with `scale \|\| 1`) |
| Config.EnemySize | static/js/game.js:471-497 | a dragon spawned in round 1, 2 or 3+ has side 16, 24 or 36 |
| Config.EnemyHealth | static/js/game.js:471-499 | health is 100, 150, 200 (50 * (min(round, 3) + 1)) |
| Config.EnemyDamage | static/js/game.js:505 | contact damage is 20, 30, 40 and always even, so a fireball's `damage / 2` is a whole number |
| Config.CurrentWeapon | static/js/game.js:242-251 | damage 25 in round 1, 40 in round 2, 60 from round 3 on; the weapon box is 32 x 32 |
| Config.WeaponProgression | static/js/game.js:48-85 | weapon damage never drops with the round, rises up to round 3 and is fixed after it |
| Config.EnemyProgression | static/js/game.js:41-43 | dragons of later rounds (up to 3) are strictly larger, tougher and harder-hitting |
| Entities.NewEnemy | static/js/game.js:493-507 | the pushed dragon carries the stats of the current round at full health |
| Entities.JsRem | static/js/game.js:562 | JavaScript's truncating `%` as used for the enemy frame: v minus the result is a whole multiple of m; the result has the sign of v and is smaller than m in size |
| Movement.FacingFollowsKeys | static/js/game.js:886-913 | without keys the facing is kept; one key on an axis turns the facing that way; the facing never points against the held keys |
| Movement.SlideKeepsClear | static/js/game.js:915-921 | each coordinate ends at its old or candidate value and changes only into a free box; a clear box stays clear |
| Animation.TickAdvances | static/js/game.js:365-371 | one update takes the counters after n ticks to those after n + 1 (counter wraps at 8, frame advances mod 4) |
| Animation.SpikesArmedHalfTheTime | static/js/game.js:432 | the spikes are armed (frame 2 or 3) exactly in the second half of each 32-tick cycle |
| Animation.AnimationPeriodic | static/js/game.js:365-371 | the animation counters repeat with period 32 |
| BasePath.LastIndexOf | static/js/game.js:198 | -1 iff the character is absent; otherwise its last position |
| BasePath.AppBasePath | static/js/game.js:196-203 | empty without '/'; otherwise the prefix ending just before the last '/' |
| BasePath.BaseOfJoin | static/js/game.js:196-203 | the base path of dir + "/" + leaf (leaf without '/') is dir |
| BasePath.SplitAtBase | static/js/game.js:196-203 | a pathname is its base path, '/', and a last segment without '/' |
| Camera.Clamp | static/js/game.js:804-805 | the camera origin is never negative, never passes the far edge of a larger map, keeps values that fit and pins to 0 when the view is not smaller than the map |
| Camera.ClampIdempotent | static/js/game.js:804-805 | clamping twice is clamping once |
| Camera.ClampMonotone | static/js/game.js:804-805 | clamping preserves order |
| TimeFormat.SplitTime | static/js/game.js:382-384 | minutes, seconds and milliseconds recompose the elapsed time; seconds < 60, milliseconds < 1000 |
| TimeFormat.PadStartSpec | static/js/game.js:659 | padStart keeps the string at the end and fills only with the pad character |
| TimeFormat.FormatTimeShape | static/js/game.js:659 | the time reads digits ':' two digits ':' three digits, 9 characters below 100 minutes |
| TimeFormat.FormatTimeRoundTrip | static/js/game.js:659 | parsing the formatted time gives back the elapsed milliseconds |
| TimeFormat.FormatTimeInjective | static/js/game.js:659 | different elapsed times are never submitted as the same string |
| Combat.LastHit | static/js/game.js:690-691 | the inner scan finds the highest-indexed enemy the projectile overlaps, or -1 |
| Combat.Damage | static/js/game.js:692 | the struck enemy loses exactly the damage; every other enemy, and every other field of the struck one, is unchanged |
| Combat.ResolveHits | static/js/game.js:686-698 | the pass never adds projectiles and keeps the enemy count |
| Combat.LastHitIgnoresHealth | static/js/game.js:690-692 | damage never redirects a later projectile's hit |
| Combat.ResolveHitsOnlyDamages | static/js/game.js:686-698 | the collision pass changes nothing but enemies' health |
| Combat.ResolveHitsKeepsMisses | static/js/game.js:689-697 | the projectiles kept are exactly those that strike no enemy, in their original order |
| Combat.ResolveHitsDamage | static/js/game.js:692 | each enemy loses the damage once per projectile whose last struck enemy it is |
| Combat.ResolveHitsNeverHeals | static/js/game.js:692 | no enemy's health goes up |
| Combat.EachProjectileHitsAtMostOnce | static/js/game.js:689-697 | hits on two enemies plus the misses never exceed the projectile count: each projectile lands at most once |
| Combat.AdvanceProjectile | static/js/game.js:974-993 | a projectile is dropped iff, after flying, its box is blocked or off the map; a kept one flew one step and advanced its frame |
| Combat.CulledProjectilesInBounds | static/js/game.js:982-992 | every projectile left in the pool is clear of solid tiles and on the map; none is added |
| Combat.CullProjectilesAppend | static/js/game.js:974-993 | culling works projectile by projectile, so it distributes over concatenation |
| Combat.AdvanceFireball | static/js/game.js:590-614 | a fireball that misses the player is dropped iff after drifting it is blocked or off the map |
| Combat.LastScorch | static/js/game.js:587-593 | the highest-indexed fireball that reaches the player after drifting, or -1 |
| Combat.ShotsPassSpec | static/js/game.js:587-616 | there is a hit iff the player is not invulnerable and some fireball reaches them; the hit is the highest-indexed one and the pool is the culling of the others |
| Combat.UnarmedShotsOnlyDrift | static/js/game.js:593 | an invulnerable player is never hit; fireballs only drift and are culled |
| Combat.MoveEnemy | static/js/game.js:530-536 | an enemy's step changes only its position |
| Combat.LastContact | static/js/game.js:538 | an index of the enemy array or -1 |
| Combat.LastContactSpec | static/js/game.js:538 | LastContact is the highest-indexed enemy that touches the player after moving; -1 when none does |
| Combat.SurvivorsSpec | static/js/game.js:553-557 | every enemy is either removed and counted or kept; the kept ones are alive and are stepped originals |
| Combat.AfterStepKeepsStats | static/js/game.js:530-562 | a step keeps an enemy's stats and spawn round |
| Combat.VolleyBound | static/js/game.js:548-551 | the pass creates at most one fireball per enemy, and none when no enemy can shoot |
| Spawning.AcceptableIffFloorAndFree | static/js/game.js:458-462 | the source's two-part test (floor code and free 16 x 16 box) equals the integer tile test `Acceptable` |
| Spawning.FindSpawnPosition | static/js/game.js:451-468 | the placement loop returns SpawnPoint |
| Spawning.SpawnFromIsFirstAcceptable | static/js/game.js:454-468 | SpawnPoint is the first acceptable candidate among the first 100, or the fallback (80, 80) when all are rejected |
| Spawning.CandidateInsideOuterRing | static/js/game.js:455-456 | candidates lie in columns 1..38 and rows 1..26 |
| Spawning.AcceptableIffFloorTile | static/js/game.js:455-462 | the tile-collision half of the test is redundant: a candidate is acceptable iff its tile is floor or checkered floor |
| Spawning.SpawnFromOnFloorTile | static/js/game.js:451-468 | when the fallback tile is floor, every chosen position lies on a floor tile |
| Spawning.SpawnPointOnFloor | static/js/game.js:451-468 | on the game's map every spawn position, fallback included, is on floor |
| Spawning.FallbackOnFloor | static/js/game.js:451 | the fallback tile (5, 5) is floor |
| Spawning.SpawnPointsAt | static/js/game.js:423 | the k-th dragon of a spawn loop stands where spawnEnemy puts it with the k-th supply of draws |
| Game.RoundFor | static/js/game.js:354-362 | the round reached after n kills is between 1 and 3, one more per 3 kills |
| Game.Kill | static/js/game.js:553-559 | a kill adds 100 to the score and 1 to the total kills; the round goes up by one, with the round's kills reset to 0 and the round clock restarted, exactly when the kill completes a round below 3; otherwise the round's kills go up by 1; no other field changes |
| Game.KillKeepsCountersAgreeing | static/js/game.js:553-559 | a kill keeps score, counters and round in agreement; the round goes up by one exactly when the kill completes a round below 3 |
| Game.Recruits | static/js/game.js:423 | every recruit has the stats of the given round at full health |
| Game.PassInvStep | static/js/game.js:516-563 | one more enemy step keeps the updateEnemies loop invariant, one index lower |
| Game.PlayerStartClear | static/js/game.js:295-296 | the player's start box at (48, 112) covers no solid tile |
| Game.World.AtMostOneSubmissionPerGame | static/js/game.js:652-665 | at most one score/time pair is submitted per game, and one is iff the game is over |
| Game.World.Init | static/js/game.js:287-305 | the initial state: player at tile (3, 7) with 300 health, round 1, no kills, empty pools |
| Game.World.HandleGameOver | static/js/game.js:652-665 | no-op once over; otherwise the game ends and the score and time are logged iff not yet submitted |
| Game.World.CheckRoundAdvancement | static/js/game.js:354-362 | with 3+ kills below round 3, the round goes up by 1, the round's kills reset and both pools empty; otherwise nothing changes |
| Game.World.UpdateAnimations | static/js/game.js:365-371 | one tick of the animation clock; nothing else changes |
| Game.World.UpdateCamera | static/js/game.js:798-806 | outside game over, the camera centres on the player and is clamped to the map |
| Game.World.ClearInvulnerable | static/js/game.js:440 | the timer callback clears only the invulnerability flag |
| Game.World.SpawnEnemy | static/js/game.js:449-507 | exactly one dragon of the current round is appended, at SpawnPoint |
| Game.World.SpawnDragons | static/js/game.js:423 | one dragon per supply of draws is appended, in order, at its spawn point |
| Game.World.OnAssetsLoaded | static/js/game.js:335-350 | three dragons are appended and the spawn clock starts |
| Game.World.Reset | static/js/game.js:395-428 | full health at the start tile, new-game counters, empty pools, exactly four round-1 dragons; a new game may submit once |
| Game.World.RestartSpawnClock | static/js/game.js:425 | only lastSpawn changes, to now |
| Game.World.ClearGame | static/js/game.js:401-417 | the field resets of resetGame, nothing else |
| Game.World.UpdatePlayer | static/js/game.js:880-928 | outside game over the player moves by Slide of the key target, facing and moving follow the keys, the frame advances mod 8; the box stays clear |
| Game.World.ReadKeys | static/js/game.js:883-913 | the candidate position and the facing the keys select |
| Game.World.HandleProjectiles | static/js/game.js:953-994 | a rising edge of the fire key appends the current weapon's projectile; then the pool becomes its culling |
| Game.World.AdvanceProjectiles | static/js/game.js:974-993 | the last-to-first splice loop computes CullProjectiles |
| Game.World.UpdateEnemyProjectiles | static/js/game.js:584-616 | the pool becomes ShotsPass's; a hit costs its damage and sets invulnerable; the game ends and submits iff health runs out |
| Game.World.FireballPass | static/js/game.js:587-615 | the last-to-first splice loop computes ShotsPass |
| Game.World.MoveFireball | static/js/game.js:588-614 | a fireball's iteration: the first hit on an armed player is removed; otherwise AdvanceFireball |
| Game.World.HandleProjectileCollisions | static/js/game.js:686-698 | outside game over, projectiles and enemies become ResolveHits with the current weapon's damage |
| Game.World.ResolvePass | static/js/game.js:689-697 | the nested splice loops compute ResolveHits |
| Game.World.CheckSpikeDamage | static/js/game.js:431-446 | on armed spikes and not invulnerable, health drops by 15 and invulnerable is set, ending the game iff health runs out; otherwise nothing changes |
| Game.World.StepEnemy | static/js/game.js:517-562 | one loop iteration of updateEnemies is EnemyStepped |
| Game.World.MoveAndTouch | static/js/game.js:519-546 | the enemy moves axis by axis; touching a non-invulnerable player costs its damage, possibly ending the game |
| Game.World.MoveAgainstTiles | static/js/game.js:530-536 | the axis-separated enemy move is MoveEnemy |
| Game.World.ShootAndSettle | static/js/game.js:548-562 | shoot if in range and off cooldown; a dead enemy is removed and scored, a live one advances its frame |
| Game.World.MaybeShoot | static/js/game.js:548-551 | in range and off cooldown: one fireball is pushed and the shot clock restarts |
| Game.World.UpdateEnemies | static/js/game.js:511-564 | no-op after game over; otherwise EnemiesPassed: survivors in order, every dead enemy scored, at most one contact hit (the highest-indexed touching enemy), game over iff it empties health, fireballs pushed in order |
| Game.World.EnemyPass | static/js/game.js:516-563 | the last-to-first loop establishes EnemiesPassed |
| Game.World.PlaceEnemy | static/js/game.js:531-535 | writing back an enemy whose position, timer or frame changed keeps the invariant |
| Game.World.HurtPlayer | static/js/game.js:538-545 | one hit: health drops, invulnerable is set, the game ends and submits once iff health runs out |
| Game.World.KillEnemy | static/js/game.js:553-559 | the enemy leaves the array, score +100, both kill counters +1, then the round check |
| Game.World.Frame | static/js/game.js:816-823 | after game over nothing changes; otherwise one tick and update(); counters and score never decrease |
| Game.World.Update | static/js/game.js:847-860 | the spawn clock restarts iff more than 10 s passed since the last spawn; counters, round and score never decrease |
| Game.World.MovePhase | static/js/game.js:848-851 | the movers touch neither the enemies nor the counters |
| Game.World.FightPhase | static/js/game.js:852-854 | the fights keep the spawn clock and start time and only add kills |

## Left out

- Rendering (`draw*` functions), audio, DOM updates and the game-over overlay: canvas and media side effects.
- `submitScore` and `submitTime`: the network requests are not modelled. Their payloads (score, and the elapsed time formatted by `TimeFormat.FormatTime`) are appended to `submissions`.
- `loadAssets` and the asset list of `init`: these depend on browser load events. `OnAssetsLoaded` is the callback they end in.
- The `requestAnimationFrame` loop and its `fpsInterval` accumulator: host scheduling. `Frame` models one frame that passes the timer.
- The check at the top of `draw()` (health 0 or below while the game is running) is not written out. `Valid` makes it impossible, because every damage step runs its own game-over check.
- Key handlers: the held keys arrive as an `Input` record. `keyDownHandler`'s game-over guard is not modelled.
- Enemy homing (`Math.sqrt`, division by a distance that can be 0) and fireball aiming: each enemy's displacement, shoot-range test and aim vector are inputs (`EnemyStep`). A single `now` serves both `update()` and `updateEnemies`' own `Date.now()`.
- `setTimeout` timing (500 ms and 1000 ms): `ClearInvulnerable` is a method the caller invokes. How long it is delayed is not modelled.
- Sprites, the dragon sprite choice (a `Math.random()` draw) and the weapon sprite cache of `getCurrentWeapon`: they do not affect the simulation.
- Floating point: coordinates are exact reals and rounding is not modelled. Health, damage and score are integers, as every value the source computes for them is.
- `roundStartTime` is set where the source sets it but nothing reads it. Enemy `lastAttack`, projectile `active` and `frameWidth`/`frameHeight` are never read by the simulation and are left out.
- Spawn placement checks tiles only: the floor code and a free 16 x 16 box (static/js/game.js:461-462). spawnEnemy never looks at the player or the other dragons, and neither does the model.
- Game.World.HandleGameOver: the model assumes the clock never runs backwards (`gs.startTime <= now`), so the elapsed time is a natural number. The source subtracts `Date.now()` from the start time without that guarantee and would format and submit a negative time after a clock change; that case is not modelled. The same requirement appears on every operation that can reach game over.
- Game.World.SpawnEnemy: the chosen position is returned as a ghost value for the contracts. The method itself computes it with `FindSpawnPosition`.
- Game.World.UpdateEnemies: after a mid-pass round advance, the fireball pool is only stated to be a suffix of the pushed volley, not exactly which suffix.
- Game.World.Frame: states the invariant, the tick, the spawn clock and that the counters never decrease. It does not state the full new state, which is the composition of the contracts of the operations it calls.
- Game.World.Update: like Frame, it states the spawn clock and the monotone counters, not the full composed state.
- Game.World.MovePhase: states only what the spawn and enemy logic relies on (enemies and counters unchanged), not the composed state.
- Game.World.FightPhase: states only the spawn clock, the start time and that kills only grow, not the composed state.
