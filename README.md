# Arcade shooter scene, modelled in Dafny

A model of the simulation inside `GameScene`, the single scene of a small
Phaser arcade shooter. The player's ship fires bullets upward on a timer.
Waves of enemies, each larger than the last, descend in rows. Treasures fall
and can be picked up. A 300-second clock counts down, and game over starts
an explosion that ends in a paused scene.

The engine (rendering, physics overlap detection, timers, input) is not
modelled. Each engine callback becomes one operation that a caller invokes on
the scene state. Every random draw becomes an explicit input:

- the wave layout's jitter, one integer in 0..40 px per column;
- the x (50..750 px) and type index (0..6) of a new treasure;
- the fire draw, as an integer percentage in 0..99.

All coordinates are integer tenths of a pixel. The per-frame speeds 7.5, 2
and 2.2 px therefore become 75, 20 and 22, and no floating point is needed.

Files:

- `waves.dfy` (module `Waves`): the wave size floor(5·1.2^(n-1)), computed
  exactly as 5·6^(n-1) / 5^(n-1). It also holds the split into rows of at
  most 8, and the left-to-right placement of a row with its `lastX`
  accumulator.
- `entities.dfy` (module `Entities`): bullets, enemies and treasures, and
  one display frame applied to a group of them (move, then cull).
- `scene.dfy` (module `Scene`): the class `GameScene`, whose fields the
  callbacks update in place. It holds the score, clock, wave counter, EW
  boost flag, player position and visibility, the game-over state and the
  three entity groups.

The game-over sequence has no guard. Each call hides the player and starts
one more explosion (`gameOvers`). The scene pauses only when an explosion
completes (`ExplosionComplete`). `Phase()` reads these fields as Running,
Exploding or Paused.

Points where the code does not do what its names and comments suggest:

- The class defines `collectTreasure` twice. The second definition
  (src/game/scenes/GameScene.js:290-298) replaces the first, so picking up
  an EW treasure never sets `hasEWBoost`. The model follows the code: the
  boost stays off, and the fire chance stays 40%.
- `hasEWBoost` is never initialised. It reads as undefined, which is falsy,
  so the model starts it at `false`.
- The clock is not stopped at zero. Every tick below zero calls game over
  again, until the scene is paused.
- A treasure's text label never moves. The treasure's own `update` closure
  is never called by the scene's `update`. The label is also not destroyed
  when its treasure falls off the bottom.

## Model

| member | source | states |
|---|---|---|
| `Waves.EnemyCount` | src/game/scenes/GameScene.js:184 | the size of wave n (n ≥ 1) is computed exactly, with integer division, and is at least the base count 5 |
| `Waves.EnemyCountIsFloor` | src/game/scenes/GameScene.js:184 | EnemyCount(n) is the floor of the real number 5·1.2^(n-1): at most that number, and more than that number minus 1 |
| `Waves.EnemyCountGrows` | src/game/scenes/GameScene.js:182-184 | each wave has at least one enemy more than the wave before |
| `Waves.FirstWaves` | src/game/scenes/GameScene.js:182-184 | waves 1, 2 and 3 have 5, 6 and 7 enemies |
| `Waves.RowCount` | src/game/scenes/GameScene.js:186-187 | the number of rows is the ceiling of count / 8: rows·8 ≥ count, and (rows-1)·8 < count when there is a row |
| `Waves.RowQuota` | src/game/scenes/GameScene.js:191 | every row that exists has a quota min(8, count - row·8) between 1 and 8 |
| `Waves.QuotasCoverCount` | src/game/scenes/GameScene.js:186-191 | the first k rows take min(count, 8k) enemies, so all rows together take exactly count |
| `Waves.PlaceFromSpaced` | src/game/scenes/GameScene.js:192-205 | enemies placed from a given lastX are all at the row's y and left of 750 px; the first is 60..100 px beyond lastX and each next one 60..100 px beyond the one before; no more are placed than there are candidates |
| `Waves.SpacedIncreasing` | src/game/scenes/GameScene.js:194-205 | in such a row the x coordinates increase strictly, starting beyond lastX |
| `Waves.PlaceFromAtLeast` | src/game/scenes/GameScene.js:194-205 | while m more candidates at the widest spacing still fall below 750 px, none of them is rejected: at least min(candidates, m) enemies are placed |
| `Waves.RowPlacementShape` | src/game/scenes/GameScene.js:192-205 | a row starting from x = 50 px at y = row·60 px is spaced as above and strictly increasing in x; it holds at most its quota of enemies and at least min(quota, 6), since six candidates always fit below 750 px |
| `Waves.RowResumesAfterRejection` | src/game/scenes/GameScene.js:196-205 | with draws 40,40,40,40,40,40,40,0 the 7th candidate (750 px) is rejected and the 8th is placed at 710 px from the unchanged lastX: 7 enemies |
| `Waves.RowInBounds` | src/game/scenes/GameScene.js:196-202 | every enemy of a row lies strictly between 50 px and 750 px, at height row·60 px |
| `Waves.LayoutRow` | src/game/scenes/GameScene.js:192-206 | the column loop, with its lastX accumulator that a rejected candidate leaves unchanged, places exactly RowPlacement(row, draws) |
| `Waves.RowsUpToCount` | src/game/scenes/GameScene.js:190-207 | the first k rows hold at most as many enemies as their quotas, and at most 2 fewer per row |
| `Waves.RowsUpToShape` | src/game/scenes/GameScene.js:190-207 | every enemy of the first k rows lies strictly between 50 and 750 px, on row heights 0, 60, …, (k-1)·60 px |
| `Waves.WaveShape` | src/game/scenes/GameScene.js:186-207 | a whole wave holds at most count and at least count − 2·rows enemies (waves of up to 6, i.e. waves 1 and 2, are placed in full), strictly between 50 and 750 px, on rows 0..RowCount(count)-1, 60 px apart |
| `Waves.LayoutWave` | src/game/scenes/GameScene.js:186-207 | the row loop gives row r the next RowQuota(count, r) draws and yields exactly WaveLayout(count, draws) |
| `Entities.FrameCharacterised` | src/game/scenes/GameScene.js:155-179 | after one frame the survivors are exactly the entities at SurvivorIndices, in their original order; each keeps its x and kind and has moved by exactly −7.5 px (bullet), +2 px (enemy) or +2.2 px (treasure); a bullet is removed iff its new y is below 0, an enemy or treasure iff its new y is above 600 px |
| `Entities.FrameKeepsKind` | src/game/scenes/GameScene.js:155-179 | a frame turns a group of bullets into bullets, enemies into enemies, treasures into treasures |
| `Entities.AdvanceGroup` | src/game/scenes/GameScene.js:157-178 | the move-then-cull loop over one group yields exactly AfterFrame(group) |
| `Scene.FiringDrawsBelow` | src/game/scenes/GameScene.js:210-211 | of the draws 0..n-1, exactly min(n, FireChance) fire |
| `Scene.FireRate` | src/game/scenes/GameScene.js:210-211 | of the 100 equally likely percent draws, exactly 40 fire without the EW boost and 60 with it |
| `Scene.Spawned` | src/game/scenes/GameScene.js:202 | each laid-out position becomes an enemy at that position, in layout order |
| `Scene.Without` | src/game/scenes/GameScene.js:234-245 | destroying the entity at position i keeps every other entity, in order |
| `Scene.GameScene.constructor` | src/game/scenes/GameScene.js:4-11 | the scene starts with the constructor's fields (:6-10) and what `create()` sets up (the player at :76, the groups at :95, :98 and :136): score 0, 300 s on the clock, wave count 0, no EW boost, the player visible at (400, 550) px, nothing exploding or paused, and no bullets, enemies or treasures |
| `Scene.GameScene.SpawnEnemyWave` | src/game/scenes/GameScene.js:181-208 | the wave counter rises by exactly 1; the new wave's EnemyCount(waveCount)-sized layout is appended to the enemies (at most that many are added); nothing else changes |
| `Scene.GameScene.Update` | src/game/scenes/GameScene.js:155-179 | each of the three groups becomes AfterFrame of its old value; score, clock, counters and player are unchanged |
| `Scene.GameScene.HitEnemy` | src/game/scenes/GameScene.js:233-248 | exactly the given bullet and the given enemy are removed, and the score rises by exactly 10; nothing else changes, so score = 10 × kills always holds |
| `Scene.GameScene.CollectTreasure` | src/game/scenes/GameScene.js:290-298 | exactly the given treasure is removed; score, clock, wave count and EW boost are unchanged |
| `Scene.GameScene.GameOver` | src/game/scenes/GameScene.js:258-270 | the player becomes invisible and one more explosion is pending; the scene is not paused by this call, so the phase becomes Exploding unless it was already Paused |
| `Scene.GameScene.ExplosionComplete` | src/game/scenes/GameScene.js:267-270 | completing a game-over explosion pauses the scene (phase Paused); nothing else changes |
| `Scene.GameScene.UpdateTimer` | src/game/scenes/GameScene.js:250-256 | the clock drops by exactly 1, and game over is triggered iff the new value is at most 0 |
| `Scene.GameScene.SpawnTreasure` | src/game/scenes/GameScene.js:47-73 | a treasure of type TreasureTypes[index] is appended at the drawn x, at the top of the play area; nothing else changes |
| `Scene.GameScene.FireBullet` | src/game/scenes/GameScene.js:209-214 | a bullet is appended 20 px above the player iff the percent draw is below 40 (the boost is never on); nothing else changes |
| `Scene.ClockRunsOut` | src/game/scenes/GameScene.js:250-256 | from a fresh scene, 299 clock ticks leave the game Running and the 300th tick makes it Exploding |

## Left out

- Rendering: asset loading, sprite scaling, the explosion sprites and their
  animation, the score, time and speed texts, and the game-over overlay.
  These are engine calls with no logic of their own.
- Treasure text labels. In the code a label is created at the treasure's x,
  20 px above the top. It never moves. It is destroyed only when its
  treasure is collected.
- Physics overlap and collider detection. The handlers receive an
  already-matched pair, given as positions in the groups' sequences.
- Timer scheduling and cadence (1 s, 7 s, 200 ms, 5 s). Every callback is an
  operation the caller invokes. In the model the operations can still be
  called once the scene is paused; stopping them is the engine's doing.
- `create()` calls `spawnEnemyWave` once immediately. In the model this is
  the caller's first `SpawnEnemyWave` after the constructor.
- Dragging the player. The position fields are set only by the constructor.
  `FireBullet` uses whatever position they hold.
- Floating point. `Math.pow(1.2, n-1)` is replaced by exact rational
  arithmetic. A double-precision result could floor differently if the exact
  value lay within rounding error of an integer. For n ≥ 3 the exact value is
  never an integer, and this case is not analysed.
- `Math.random()` and `Phaser.Math.Between`: replaced by explicit inputs,
  constrained to their ranges.
- `console.log`, and the engine's behaviour when `children.each` iterates
  over a group while entities in it are being destroyed.
- The first, shadowed definition of `collectTreasure`
  (src/game/scenes/GameScene.js:216-231). It cannot be reached, because the
  second definition replaces it.
- src/index.js and webpack.config.js: engine and bundler configuration.
