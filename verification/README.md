# Canvas shooter: the game state of `src/index.ts`

A player sits at the centre of a canvas. Each click fires a projectile towards
the clicked point. A timer spawns enemies just outside one edge of the canvas, and
they drift towards the player. Every display refresh runs one frame of
`animate()`, in this order:

1. Every particle is updated (friction, move, fade). Particles whose alpha
   has reached 0 are spliced out.
2. The projectiles are moved from the last index down. The first one found off
   the screen is spliced out, and the loop stops there.
3. The enemies are handled from the last index down. Each enemy moves and is
   tested against the player; contact shows the game-over modal with the
   current score and cancels the next frame. Then the projectiles are scanned
   from the last index down. The first projectile that hits the enemy:
   - pushes ⌈2r⌉ particles;
   - earns 100 points and shrinks the enemy by 10 when `r - 10 > 10`,
     otherwise earns 250 points and removes the enemy;
   - is itself spliced out, and the scan ends.

The start button hides the modal, runs `gameReset()` (empty collections,
score 0) and runs a frame at once.

The project is in three layers:

- **Value level.** `Entities`, `Collisions`, `Particles`, `Projectiles`,
  `Spawning` and `Frames` describe every rule as pure functions over value
  snapshots:
  - `Body` and `Spark` for the moving things;
  - `Sweep` for the state of the enemy loop;
  - `World` for the whole game;
  - `Step` and `Run` for the events of a session (display refresh, spawner
    tick, canvas click, start click).
- **Properties.** Lemmas on those functions state the hit rule, the scoring,
  the culling passes, the game-over rule and the between-frames invariant
  `Healthy`.
- **Imperative level.** `Arena.Game` is a class holding the same three
  arrays of objects (`Particle`, `Projectile`, `Enemy` are classes updated in
  place), the score, the phase and the score shown in the modal. It runs the
  source's loops with `splice` as `Seqs.Remove`. Each method is proved
  against the value-level function for the same step. So `Game.Frame` ensures
  `Snapshot() == Tick(old(Snapshot()), …)`, and everything proved about
  `Tick` holds for the objects. The event handlers `Game.Reset`,
  `Fire`, `SpawnEnemy`, `Start`, `Frame`, `Handle` and `HandleAll` also ensure
  that the collections hold only objects they held before or objects the call
  created, so the events of a session can be run one after another on the
  same game (`Game.HandleAll`).

Randomness (`Math.random()`), the trigonometry that turns a click or a spawn
position into a unit vector, and the canvas size are parameters.
`SparkNoise` holds the five draws of one particle. `noise(k)` gives the draws
of the particle that lands at index k of the particle array. A hit that pushes
particles when the array holds n of them uses `noise(n)`, `noise(n + 1)`, … in
turn.

Facts of the code that the model keeps as written:

- A hit pushes ⌈2r⌉ particles, because the loop `i < r * 2` counts up from 0
  (`Particles.SparkCountIsTripCount`).
- A hit needs a distance strictly below the sum of the radii
  (`Collisions.TouchingIsDistance`).
- Particles are pushed on every hit, when the enemy shrinks as well as when it
  is removed.
- Within a frame, particles are updated first, then projectiles, then
  enemies.
- The projectile pass removes at most one projectile per frame, because of
  its `break`. Of two projectiles that would both be off the screen once
  moved, the lower one is neither moved nor removed in that frame
  (`Projectiles.SecondExitWaits`).
- This version keeps no high score and plays no audio.

## Model

| member | source | states |
|---|---|---|
| Entities.Projectile.constructor | src/index.ts:59-67 | a new projectile holds exactly the position, radius, colour and velocity it was given |
| Entities.Projectile.Update | src/index.ts:76-80 | `update()` adds the velocity to the position and changes nothing else |
| Entities.Drift | src/index.ts:78-79 | defines the move of `update()`: the velocity is added to the position and the rest of the body is kept |
| Entities.DriftIsTranslation | src/index.ts:76-80 | a move keeps radius, colour and velocity: `update()` changes only the position |
| Entities.Enemy.constructor | src/index.ts:59-67 | a new enemy holds exactly the position, radius, colour and velocity it was given |
| Entities.Enemy.Update | src/index.ts:76-80 | the inherited `update()` moves the enemy by its velocity |
| Entities.Enemy.ChangeSize | src/index.ts:92-94 | `changeSize` sets the radius and nothing else |
| Entities.Particle.constructor | src/index.ts:100-101 | a new particle holds the given body and starts with alpha 1.0 |
| Entities.Particle.Update | src/index.ts:110-115 | the update multiplies both velocity components by FRICTION, then moves by the slowed velocity, then lowers alpha by 0.01 |
| Entities.Fade | src/index.ts:110-115 | defines the particle update: both velocity components times FRICTION, then the move by the slowed velocity, then alpha minus 0.01 |
| Entities.FadeSlowsAndDims | src/index.ts:110-115 | an update lowers alpha by exactly 0.01; it never speeds up a velocity component or flips its sign; the particle moves by the slowed velocity |
| Collisions.TouchingIsDistance | src/index.ts:208-220 | the squared-distance test agrees with `Math.hypot(dx, dy) < reach` for every reach |
| Collisions.Hits | src/index.ts:218-220 | defines a hit: the projectile and enemy centres are strictly closer than the sum of their radii |
| Collisions.Contact | src/index.ts:208-209 | defines contact: the enemy and player centres are strictly closer than the sum of their radii |
| Collisions.LastHit | src/index.ts:216-221 | the scan yields the highest index whose projectile hits the enemy, none above it hits, and it yields nothing exactly when no projectile hits |
| Collisions.HitOutcome | src/index.ts:237-245 | the enemy survives exactly when `r - 10 > 10`, and then its new radius is `r - 10`, still above the minimum |
| Collisions.Bonus | src/index.ts:237-245 | every hit earns a positive multiple of 50 points |
| Seqs.Remove | src/index.ts:179 | `splice(k, 1)` shortens the array by one; elements below k stay and those above k shift down by one |
| Particles.SparkCount | src/index.ts:222 | the push loop runs the least n with n ≥ 2r times, that is ⌈2r⌉ |
| Particles.SparkCountIsTripCount | src/index.ts:222 | the counter passes the loop test `i < r * 2` exactly while it is below SparkCount(r) |
| Particles.Spray | src/index.ts:229-232 | defines a new particle's velocity: each component is `(random - 0.5) * (random * 5)` of its own draws |
| Particles.Scatter | src/index.ts:223-234 | defines one pushed particle: at the enemy's centre, radius `random * 2`, the enemy's colour, the Spray velocity, alpha 1 |
| Particles.Burst | src/index.ts:222-236 | defines the particles one hit pushes: SparkCount(r) of them, the one landing at index k of the particle array taking the draws noise(k) |
| Particles.ScatterBounds | src/index.ts:222-236 | with draws in [0, 1) a new particle has radius in [0, 2) and each velocity component in (-2.5, 2.5) |
| Particles.BurstShape | src/index.ts:222-236 | a hit pushes SparkCount(r) particles, each at the enemy's centre, in its colour, with alpha 1.0 |
| Particles.Faded | src/index.ts:175-181 | defines the particle pass: each particle updated, kept in order when its alpha is still above 0 and dropped otherwise |
| Particles.FadedAlive | src/index.ts:175-181 | after the particle pass every remaining particle has alpha > 0 and none was added |
| Particles.FadedSplits | src/index.ts:175-181 | the pass works particle by particle, so on a concatenation it is the pass on each part, in the same order, and survivors keep their relative order |
| Particles.FadedMembers | src/index.ts:175-181 | a particle remains exactly when it is the update of a former particle and its alpha is positive |
| Projectiles.LastOut | src/index.ts:184-197 | the pass stops at the highest index whose moved projectile is off the screen, every one above it stays on, and it runs to the end exactly when none is off |
| Projectiles.OutOfBounds | src/index.ts:188-193 | defines the edge test: the centre lies more than r beyond the left, right, top or bottom side |
| Projectiles.CullOffscreen | src/index.ts:184-197 | defines the projectile pass: all move when none leaves; otherwise the projectiles above the highest leaving one move, it is removed, and those below stay where they were |
| Projectiles.LastOutIsLastExit | src/index.ts:184-197 | conversely, an off-screen projectile with none off above it is where the pass stops |
| Projectiles.NoExitMovesAll | src/index.ts:184-197 | with no projectile off the screen the pass moves every projectile and removes none |
| Projectiles.CullRemovesAtMostOne | src/index.ts:184-197 | the pass removes at most one projectile, and removes one exactly when some projectile is off the screen once moved |
| Projectiles.CullKeepsProjectiles | src/index.ts:184-197 | every projectile after the pass was there before, moved or as it was |
| Projectiles.CullMovesUpToTheExit | src/index.ts:184-197 | the projectiles below the removed one are untouched, and those above it are moved and on the screen |
| Projectiles.SecondExitWaits | src/index.ts:184-197 | when two projectiles i < k would both be off the screen once moved, one at index k or above is removed and the pass stops, so projectile i is neither moved nor removed in that frame |
| Spawning.SpawnRadius | src/index.ts:257 | the radius is the larger of 10 and `random * 30` |
| Spawning.Spawned | src/index.ts:257-268 | defines a spawned enemy: one axis picks a vertical or horizontal edge, a side draw puts it r outside that edge, an offset draw places it along the edge |
| Spawning.SpawnedOnEdge | src/index.ts:257-268 | with draws in [0, 1) a new enemy has radius in [10, 30), keeps the given velocity and colour, and sits one radius outside one edge, within that edge's span |
| Frames.Approach | src/index.ts:204-213 | moving an enemy and testing contact keeps the number of enemies |
| Frames.Resize | src/index.ts:237-245 | a hit shrinks enemy k by 10 in place when it survives, else removes it; the enemies below k keep their places |
| Frames.Damage | src/index.ts:222-245 | the particle push, the scoring and the resize leave the enemies below k in place |
| Frames.Strike | src/index.ts:222-249 | a hit followed by the projectile's removal leaves the enemies below k in place |
| Frames.SweepStep | src/index.ts:204-251 | one turn of the enemy loop leaves the enemies below k in place, so the loop sees them unchanged |
| Frames.SweepFrom | src/index.ts:203-252 | defines the enemy loop: the turns for indices i - 1 down to 0, each on the state the previous one left |
| Frames.SweepAdvance | src/index.ts:203-252 | one turn of the loop leaves the same remaining work to be done |
| Frames.HitRule | src/index.ts:216-250 | when the moved enemy is hit: exactly the hit projectile is removed, ⌈2r⌉ particles are appended after the existing ones, and either `r - 10 > 10`, the score grows by exactly 100 and the enemy stays with radius `r - 10`, or the score grows by exactly 250 and the enemy is removed |
| Frames.MissRule | src/index.ts:216-251 | an enemy that no projectile hits only moves; projectiles, particles and score are unchanged |
| Frames.StepAccounting | src/index.ts:216-250 | one enemy uses up at most one projectile, and its turn adds 100 for a shrink, 250 for a kill, nothing for a miss |
| Frames.SweepAccounting | src/index.ts:203-252 | over the enemy loop, kills ≤ projectiles used ≤ enemies; the score grows by 100 per shrink plus 250 per kill, so it never falls |
| Frames.SweepContact | src/index.ts:207-213 | the loop ends the game exactly when some enemy, once moved, touches the player (or it was already over) |
| Frames.SweepModal | src/index.ts:209-211 | the modal score is untouched or lies between the score before the loop and the score after it |
| Frames.StepKeepsEnemySize | src/index.ts:237-245 | one turn keeps every enemy at radius 10 or more |
| Frames.StepOnlyRemovesProjectiles | src/index.ts:248 | one turn adds no projectile |
| Frames.StepPushesOpaque | src/index.ts:222-236 | one turn keeps the existing particles as a prefix and appends only particles with alpha 1.0 |
| Frames.SweepKeepsShapes | src/index.ts:203-252 | the enemy loop keeps enemies at radius 10 or more, adds no projectile, keeps the existing particles and appends only opaque ones |
| Frames.StepKeepsHealth | src/index.ts:203-252 | one turn of the enemy loop keeps the between-frames invariant |
| Frames.SweepKeepsHealth | src/index.ts:203-252 | the whole enemy loop keeps the between-frames invariant |
| Frames.TickScore | src/index.ts:168-253 | a frame never lowers the score: it rises by 100 per shrink and 250 per kill, each hit using one projectile and each enemy at most one |
| Frames.Tick | src/index.ts:168-253 | defines one frame of `animate()`: the particle pass, then the projectile pass, then the enemy loop; contact sets the phase to GameOver |
| Frames.TickGameOver | src/index.ts:207-213 | a frame ends the game exactly when some moved enemy touches the player; otherwise the phase is unchanged |
| Frames.TickModal | src/index.ts:209-211 | after a frame the modal score is unchanged or lies between the score before and after the frame |
| Frames.TickHealthy | src/index.ts:168-253 | a frame keeps the invariant: every particle alive, every projectile of radius 7, every enemy of radius 10 or more, score a non-negative multiple of 50 |
| Frames.TickOfEmpty | src/index.ts:319-323 | the first frame after a start, on empty collections, changes nothing |
| Frames.Reset | src/index.ts:159-165 | `gameReset()` empties the three collections and sets the score to 0, leaving phase and modal as they were |
| Frames.Step | src/index.ts:159-323 | defines the effect of each event: a refresh runs Tick only while Running, a spawner tick appends Spawned, a click appends a projectile at the player with speed 5, a start click resets, sets Running and runs a frame |
| Frames.Run | src/index.ts:159-323 | defines a session: the events applied by Step one after another, in order |
| Frames.StartClears | src/index.ts:319-323 | a start click always leaves an empty running game with score 0 |
| Frames.ScoreNeverFallsBetweenResets | src/index.ts:159-253 | between two start clicks no event lowers the score |
| Frames.StepHealthy | src/index.ts:159-323 | every event (refresh, spawner tick, canvas click, start click) keeps the between-frames invariant |
| Frames.RunHealthy | src/index.ts:159-323 | after any sequence of events the between-frames invariant still holds |
| Arena.FindHit | src/index.ts:216-221 | the collision scan loop returns exactly LastHit of the moved projectiles |
| Arena.FadeStep | src/index.ts:175-181 | one turn of the particle loop, with or without its splice, extends the processed suffix by one |
| Arena.DriftStep | src/index.ts:184-197 | one turn of the projectile loop extends the moved suffix by one, and its splice leaves the pass's result |
| Arena.Game.constructor | src/index.ts:139-150 | the load handler gives empty collections, score 0, the player at the centre, and the invariant |
| Arena.Game.Reset | src/index.ts:159-165 | the state after `gameReset()` is Frames.Reset of the state before, and the invariant holds |
| Arena.Game.Fire | src/index.ts:295-312 | a click appends a projectile at the player's centre with speed 5 along the given direction, as Step does for Click |
| Arena.Game.SpawnEnemy | src/index.ts:257-285 | a spawner tick appends the enemy Spawned describes, as Step does for SpawnTick |
| Arena.Game.Start | src/index.ts:319-323 | the start button has the effect Step gives StartClick: reset, then the first frame |
| Arena.Game.Frame | src/index.ts:168-253 | one run of `animate()` turns the state into Tick of the old state and keeps the invariant |
| Arena.Game.Handle | src/index.ts:168-323 | dispatching one event to the handler for it has the effect Step gives that event, and every object the game then holds was held before or is new |
| Arena.Game.HandleAll | src/index.ts:168-323 | handling a sequence of events one by one on the same game has the effect Run gives the sequence |
| Arena.Game.FadeAndCull | src/index.ts:175-197 | the particle pass and then the projectile pass leave exactly the state the enemy loop starts from (InitialSweep of the state before the frame) |
| Arena.Game.FadeParticles | src/index.ts:175-181 | the particle loop leaves exactly Faded of the old particles |
| Arena.Game.FadeOne | src/index.ts:176-180 | one turn of the particle loop keeps the loop invariant |
| Arena.Game.FadeParticle | src/index.ts:176 | `particles[i].update()` changes particle i as Fade says and no other |
| Arena.Game.DropParticle | src/index.ts:179 | `particles.splice(i, 1)` removes exactly particle i, the rest keep their order, and no particle appears twice |
| Arena.Game.CullProjectiles | src/index.ts:184-197 | the projectile loop leaves exactly CullOffscreen of the old projectiles |
| Arena.Game.CullStep | src/index.ts:185-196 | one turn either removes the projectile and completes the pass, or moves it, finds it on the screen and extends the moved suffix |
| Arena.Game.MoveProjectile | src/index.ts:185-193 | `projectiles[i].update()` moves projectile i only, and the edge test reports OutOfBounds of the moved body |
| Arena.Game.DropProjectile | src/index.ts:194 | `projectiles.splice(i, 1)` removes exactly projectile i, the rest keep their order, and no projectile appears twice |
| Arena.Game.SweepEnemies | src/index.ts:203-252 | the enemy loop leaves exactly SweepFrom of the old state, and the phase becomes GameOver or stays |
| Arena.Game.SweepOne | src/index.ts:204-251 | one turn of the enemy loop keeps the loop invariant |
| Arena.Game.ResolveEnemy | src/index.ts:204-251 | one turn on enemy k has the effect SweepStep gives it |
| Arena.Game.MoveEnemy | src/index.ts:204-213 | the enemy's move and the contact test have the effect Approach gives them |
| Arena.Game.StrikeEnemy | src/index.ts:222-249 | a hit has the effect Strike gives it |
| Arena.Game.DamageEnemy | src/index.ts:222-245 | the particle push, the scoring and the resize have the effect Damage gives them |
| Arena.Game.ScoreHit | src/index.ts:237-245 | the score grows by Bonus of the outcome and the enemy list becomes Resize of the old one |
| Arena.Game.ShrinkEnemy | src/index.ts:239-241 | the shrink sets enemy k's radius and changes no other enemy |
| Arena.Game.DropEnemy | src/index.ts:244 | `enemies.splice(i, 1)` removes exactly enemy i, the rest keep their order, and no enemy appears twice |
| Arena.Game.EmitBurst | src/index.ts:222-236 | the push loop appends SparkCount(r) particles, exactly Burst of the enemy, and keeps the old ones |
| Arena.Game.AddParticle | src/index.ts:223-235 | `particles.push(p)` appends p after the existing particles, which are unchanged |

## Left out

- Drawing: every `draw()`, the translucent `fillRect` trail and the running score display (`scoreEl.innerHTML`, lines 164 and 247 of `src/index.ts`). They have no effect on the state. The score written into the game-over modal (line 211) is modelled as `modalScore`.
- DOM lookups and the guard that they all exist. The model starts from the load handler's successful branch.
- Scheduling: `requestAnimationFrame`, `cancelAnimationFrame`, `setInterval` and `clearInterval`. One display refresh is one Refresh event, or one `Game.Frame` call, and only while the phase is Running. One spawner tick is one SpawnTick event, or one `Game.SpawnEnemy` call, in every phase.
- `Math.random()`: each draw is a parameter. SpawnNoise holds the draws of one spawn; `noise(k)` holds the five draws of the particle that lands at index k of the particle array.
- The enemy's hue is a given colour.
- Trigonometry and `Math.hypot`:
  - The unit vector towards a click or towards the player is a given velocity.
  - Distances are compared squared; `Collisions.TouchingIsDistance` shows this is equivalent.
- Floating point: coordinates, radii and alpha are reals. No property that depends on IEEE rounding is stated.
- The `gsap.to` tween: the enemy's radius takes its end value `r - 10` at once. The frames in which the tween is still running are not modelled, and this changes outcomes there:
  - A second hit during the tween sees an intermediate radius in the source. With r = 25 hit again a few frames later at r ≈ 22, the source shrinks the enemy again (22 - 10 > 10) for +100. The model sees 15 and removes it for +250.
  - The contact and hit tests of those frames use the larger, intermediate radius in the source and the end radius in the model.
- The `Player` singleton: the player is a value fixed at load time (`Stage`).
- Code with no effect on the game state: the `shape` array, built from random draws but never read, and the commented-out stop-spawn handler.
- The window click listener also receives the click on the start button. That fires one projectile after the start, which is the event Click following StartClick. It is not folded into StartClick.
- A start click while frames are already scheduled would start a second frame chain. This cannot happen while the modal covers the page, so it is not modelled.
- Frames are only scheduled while the game runs, so `Game.Frame` requires the phase to be Running. Step gives a Refresh in another phase no effect.
