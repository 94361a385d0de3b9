# Arcade shooter simulation core, in Dafny

This project models the per-frame simulation of a single-component React
arcade shooter (`src/App.jsx`) and proves properties of it. The ship
accelerates under the arrow keys with friction and a velocity cap, and is
clamped to the screen. Player and enemy bullets and explosions move and are
pruned at the screen edges. Enemies fall with a sideways weave, spawn at
random and fire at random. Player bullets destroy the enemies they strike,
scoring 10 each. An enemy bullet in the ship's box costs 10 health, and at 0
the game is over until a restart.

The state slices of `App` are the fields of the class `Simulation.Game`.
One run of the 60 Hz interval is `Game.Tick`. It rests on three pieces:

- `Simulation.Step` states the tick as a function of the state the interval
  callback captured.
- `Simulation.Advance` computes the tick statement by statement, in the
  callback's order, and is proved equal to `Step`.
- `Game.Commit` writes the result to every field at once, as React does
  when it applies the queued updaters.

The parts of the source that mutate things step by step are methods with
loops or field updates, each proved against a function:

- the velocity updater: `Kinematics.NextVelocity` against
  `Kinematics.VelocityAfter`;
- the `forEach` push loop of enemy fire: `Spawning.EnemyFire` against
  `Spawning.Volley`;
- the counting filter of `checkCollisions`: `Collisions.CheckCollisions`
  against `Survivors`, `Doomed`, `SpentIds` and `Blasts`.

The `map`/`filter` updaters are functions over sequences (module `Movement`).

Read order within one tick follows the source:

- the position moves by the velocity of the previous frame;
- the collision filter tests the enemies after they moved and spawned,
  against the player bullets the frame started with;
- enemies fire from where they stood when the frame started;
- the hit test uses the enemy bullets and ship position the frame started
  with.

React applies the queued updaters hook by hook, in declaration order, so:

- the enemy filter has counted the destroyed enemies and collected the
  spent bullet ids before the score and bullet updaters read them;
- the explosions queued by the collision callback come after the drift
  updater of the same frame, so they are appended undrifted.

Points where the code's behaviour is easy to misread; the model follows
the code:

- Restart clears neither the explosions nor the velocity nor the id
  counters.
- `restartGame` has no guard of its own. Only the game-over screen shows its
  button.
- Firing is not guarded by the game phase.
- Enemy-bullet ids are `bulletId` plus the length of the whole enemy-bullet
  list, and the counter then grows by that whole length. So ids are not
  guaranteed distinct.
- Every explosion queued in one frame carries the same `explosionId`.

## Model

| member | source | states |
|---|---|---|
| Kinematics.AxisAfter | src/App.jsx:115-143 | One velocity axis after the step. Its magnitude is at most friction × 10 and at most friction × the accumulated value. It is 0 exactly when the damped clamped value is below 0.01 in magnitude, and that value otherwise. Its sign is never reversed. |
| Kinematics.VelocityAfter | src/App.jsx:111-146 | Both components end in [-10, 10], and each is exactly 0 or has magnitude at least 0.01. |
| Kinematics.NextVelocity | src/App.jsx:111-146 | The field-by-field updater (copy, accelerate per held key, clamp, damp, snap) returns exactly `VelocityAfter`. |
| Kinematics.FrictionChoice | src/App.jsx:113-137 | The friction factor is 0.98 iff some arrow key is held and 0.85 iff none is. Either way it lies strictly between 0 and 1. |
| Kinematics.MovePlayer | src/App.jsx:149-152 | The new corner has x, y ≥ 0 always. It is within [0, width-30] × [0, height-50] when the screen is at least 30 × 50. An axis the ship does not fit on pins it at 0. |
| Kinematics.MovePlayerIsNearest | src/App.jsx:149-152 | On a screen that fits the ship, no on-screen point is nearer, axis by axis, to where the velocity would take the ship. A target already on screen is reached exactly. |
| Kinematics.CoastAxisDecays | src/App.jsx:137-143 | With no key held, after n frames a component is at most its start damped n times by 0.85. |
| Kinematics.IdleStops | src/App.jsx:137-143 | Released at any velocity within the cap, the ship's velocity is exactly (0, 0) after 43 frames. |
| Kinematics.NoOvershoot | src/App.jsx:137-143 | With no key held, no component ever changes sign. |
| Movement.MoveBullets | src/App.jsx:155 | The surviving player bullets are a subsequence of the moved list, so order is kept. |
| Movement.MoveBulletsKeeps | src/App.jsx:155 | A bullet moved up 7 survives iff its new y is > 0. Every survivor has y > 0. Every copy of a surviving moved bullet is kept. |
| Movement.MovedBulletOrigin | src/App.jsx:155 | Every surviving bullet is an input bullet moved up by 7, with its id and x unchanged. |
| Movement.MoveEnemyBullets | src/App.jsx:158 | The surviving enemy bullets are a subsequence of the moved list. |
| Movement.MoveEnemyBulletsKeeps | src/App.jsx:158 | An enemy bullet moved down 5 survives iff its new y is below the screen height. Every survivor is. Every copy of a surviving moved bullet is kept. |
| Movement.MoveEnemies | src/App.jsx:161-165 | The surviving enemies are a subsequence of the fallen-and-weaved list. |
| Movement.MoveEnemiesKeeps | src/App.jsx:161-165 | An enemy that fell by its speed survives iff its new y is below the screen height. Every survivor is. Every copy of a surviving moved enemy is kept. |
| Movement.MovedEnemyOrigin | src/App.jsx:161-165 | Every surviving enemy is an input enemy with y += speed and x += weave(old y). Its id, speed and size are unchanged. |
| Movement.DriftExplosions | src/App.jsx:211-214 | The surviving explosions are a subsequence of the drifted list. |
| Movement.DriftExplosionsKeeps | src/App.jsx:211-214 | An explosion moved down 1 survives iff its new y is below the screen height. Every survivor is. Every copy of a surviving explosion is kept. |
| Spawning.Scale | src/App.jsx:171-173 | `random × d` with a roll in [0, 1) lies between 0 and d and never reaches d unless d = 0. |
| Spawning.SpawnEnemy | src/App.jsx:168-177 | A spawned enemy has the current enemy id, y = 0, size 50 × 50 and speed in [1, 3). When the screen is at least 50 wide, its x lies in [0, width-50]. |
| Spawning.Volley | src/App.jsx:181-190 | One bullet per enemy whose roll is below 0.005. The k-th new bullet's id is `bulletId` + the list length before it. |
| Spawning.EveryFiringEnemyShoots | src/App.jsx:183-186 | Every enemy whose roll fires contributes a bullet at the middle of its bottom edge. |
| Spawning.EveryShotHasAShooter | src/App.jsx:183-186 | Every new enemy bullet comes from an enemy whose roll fires, at that enemy's muzzle. |
| Spawning.ShotsInShooterOrder | src/App.jsx:183-186 | When two enemies both fire, the earlier one's bullet comes first in the volley. |
| Spawning.EnemyFire | src/App.jsx:181-190 | The push loop over the frame-start enemies returns the previous list followed by the volley. |
| Collisions.FirstHit | src/App.jsx:72-75 | `find` returns nothing iff no bullet lies in the enemy's closed box. |
| Collisions.FirstHitIsFirst | src/App.jsx:72-75 | The bullet found lies in the box, and no bullet before it in list order does. |
| Collisions.Survivors | src/App.jsx:70-95 | The enemies kept are a subsequence of the targets, so order is kept. |
| Collisions.SurvivorsMembers | src/App.jsx:70-95 | An enemy is kept iff no bullet lies in its box. |
| Collisions.SurvivorsCopies | src/App.jsx:70-95 | Every copy of an enemy no bullet strikes is kept, and no copy of a struck one. |
| Collisions.Doomed | src/App.jsx:76-93 | The destroyed enemies are a subsequence of the targets. |
| Collisions.DoomedMembers | src/App.jsx:76-93 | An enemy is destroyed iff some bullet lies in its box, and then every copy of it is destroyed. |
| Collisions.DestroyedCount | src/App.jsx:77 | The count of destroyed enemies is the number of targets minus the number kept. |
| Collisions.Blasts | src/App.jsx:79-91 | One explosion per destroyed enemy, in order, centred on the enemy, all with the frame's `explosionId`. |
| Collisions.RemoveSpent | src/App.jsx:102 | The remaining player bullets are a subsequence of the moved ones. |
| Collisions.RemoveSpentMembers | src/App.jsx:102 | A bullet is kept iff its id is not among the spent ids, and then every copy of it is kept. `SpentIds` is the set of ids of each destroyed enemy's first hit. |
| Collisions.SpentAtMostDestroyed | src/App.jsx:72-78 | The bullets spent never outnumber the enemies destroyed. |
| Collisions.OneBulletTwoEnemies | src/App.jsx:72-78 | A bullet in the overlap of two enemies destroys both and is the only bullet spent. |
| Collisions.ResolveStep | src/App.jsx:71-94 | What one more enemy of the filter adds to the kept list, the destroyed list, the spent ids and the explosions. |
| Collisions.CheckCollisions | src/App.jsx:66-105 | The counting filter returns the survivors and the number destroyed (= targets − survivors), the spent ids and the explosions. |
| Collisions.PlayerHit | src/App.jsx:195-198 | `some` is true iff some enemy bullet lies in the ship's closed 30 × 30 box. |
| Collisions.HealthAfter | src/App.jsx:199-207 | A hit costs exactly one loss of 10, clamped at 0, however many bullets overlap. Without a hit health is unchanged. Health becomes 0 iff it was at most 10. |
| Simulation.Step | src/App.jsx:107-215 | While the game is over nothing changes. The screen never changes. The score rises by exactly 10 × the number of enemies the collision removed. |
| Simulation.Advance | src/App.jsx:109-215 | The interval callback, statement by statement in source order, computes `Step`. |
| Simulation.HealthStep | src/App.jsx:199-207 | A frame keeps health a multiple of 10 within [0, 100]. |
| Simulation.ScoreStep | src/App.jsx:99 | Scoring never lowers the score and keeps it a multiple of 10. |
| Simulation.MovedWellFormed | src/App.jsx:161-165 | Falling keeps every enemy 50 × 50 with speed in [1, 3). |
| Simulation.ArrivalsWellFormed | src/App.jsx:161-177 | Falling and spawning produce only 50 × 50 enemies with speed in [1, 3). |
| Simulation.StepKeepsInv | src/App.jsx:107-215 | Every frame keeps the invariant: health a multiple of 10 in [0, 100], game over iff health is 0, score a non-negative multiple of 10, velocity within ±10 and well-formed enemies. |
| Simulation.HitKeepsEnemyBullets | src/App.jsx:194-208 | A hit removes no enemy bullet: each one still above the bottom edge after its move is in the next state. |
| Simulation.Game.constructor | src/App.jsx:9-22 | The initial slices: ship centred 100 above the bottom, at rest, health 100, score 0, empty lists, counters 0. |
| Simulation.Game.Tick | src/App.jsx:107-215 | The fields after a frame are `Step` of the fields before, and the invariant is kept. |
| Simulation.Game.Commit | src/App.jsx:9-22 | Every slice takes its new value, and the committed state satisfies the invariant. |
| Simulation.Game.Fire | src/App.jsx:49-51 | Appends a bullet with the current bullet id at (x + 15, y) of the ship and increments the id. Nothing else changes. |
| Simulation.Game.Restart | src/App.jsx:222-229 | Ship recentred 100 above the bottom, health 100, score 0, enemies and both bullet lists empty, not game over. Screen, velocity, explosions and id counters are unchanged. |

## Left out

- Rendering (src/App.jsx:234-266) and `src/components/`: presentation only. The explosion component's timed removal (src/App.jsx:252) is an external event and is not modelled.
- Audio (src/App.jsx:31-33, 52-53, 81-82, 204, 230-231): foreign I/O.
- The window listeners, key map, resize handling and the `setInterval` scheduling (src/App.jsx:35-64, 109, 216-220). Held keys are a `Keys` value passed to `Tick`. The screen size is a field nothing in the model changes.
- `Math.random()`: every draw of a frame is an input in a `Rolls` value. The position and speed rolls must lie in [0, 1). The spawn and fire rolls are compared with their thresholds and otherwise unconstrained. Their distributions are not modelled.
- `Math.sin(enemy.y / 30) * 2`: the sideways weave is an arbitrary function `weave` passed to `Tick`. Nothing is assumed of it, not even the ±2 bound.
- IEEE-754 arithmetic: all coordinates and velocities are exact reals.
- Id uniqueness: ids are carried as opaque numbers and nothing is proved about their distinctness, which the code does not ensure.
- React scheduling beyond the order described above: eager evaluation of a first updater, development-mode double invocation and re-render timing.
- Simulation.Game.Fire: the key-map update of the same handler (src/App.jsx:48) is not modelled, since held keys are an input.
