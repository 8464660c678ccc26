# Breakout game logic in Dafny

A model of the game logic of a small Breakout game built on an
entity-component-system engine. The engine (rendering, audio, input polling,
scheduling, the AABB overlap test) is outside the model. The game's own rules
are modelled and proved:

- how the ball's velocity, the score and the block despawns respond to one
  collision pass (`ball.dfy`, module `Balls`);
- how the A/D keys move the paddle and how it is clamped between the walls
  (`paddle.dfy`, module `Paddles`);
- the block grid: row and column counts, the lattice of block centres, and
  proofs that blocks stay inside the walls and never overlap (`blocks.dfy`,
  module `Blocks`);
- position integration, the score resource and the scoreboard text
  (`resources.dfy`, module `Resources`);
- one fixed-timestep tick in the order the schedule chains the systems, and
  the initial world with score 0 (`game.dfy`, module `Game`).

`common.dfy` holds the engine's value types (vectors, transforms) and
`walls.dfy` the wall geometry. The wall module of the game is not part of
this model, so `LEFT_WALL`, `RIGHT_WALL`, `BOTTOM_WALL`, `TOP_WALL` and
`WALL_THICKNESS` are a `Walls` parameter.

Modelling choices:

- Positions, velocities and times are `real`. Entities are `nat` indices into
  the world's storage. Transforms sit in an `array` that the systems update in
  place.
- The ball's velocity component is passed in and returned as a value. The
  score lives in a `Scoreboard` object. Despawns are appended to a `Commands`
  queue, as in the engine, where they take effect later.
- The engine's overlap test is an input. Each `Contact` carries the side it
  reported (or none) and whether the collider has the `Block` marker.
- `as i32` on the floored row and column counts saturates, as Rust's
  float-to-int cast does.
- The code negates a velocity component only when the ball is moving into
  the side it hit (src/ball.rs:67-70); `Inside` never reflects.

## Model

| member | source | states |
|---|---|---|
| `Balls.SpawnBall` | src/ball.rs:21-44 | the spawned ball moves down at 200, its horizontal speed is at most 400, its size is 20×20 and it starts at (0, -50, 1) |
| `Balls.Reflect` | src/ball.rs:63-80 | after Left vx ≤ 0, after Right vx ≥ 0, after Top vy ≥ 0, after Bottom vy ≤ 0; a component changes iff the ball moved into the side hit; each component keeps or negates its value; the axis not named by the side is kept; Inside or no collision keeps the velocity |
| `Balls.ReflectIdempotent` | src/ball.rs:67-80 | handling the same side twice equals handling it once |
| `Balls.RespondPreservesSpeed` | src/ball.rs:74-80 | over any sequence of contacts, \|vx\| and \|vy\| are preserved |
| `Balls.RespondWithoutSideHits` | src/ball.rs:65-71 | contacts that are all absent or Inside leave the velocity unchanged |
| `Balls.DespawnsMatchHits` | src/ball.rs:82-85 | the number of despawns queued equals the points scored, and neither exceeds the number of colliders |
| `Balls.DespawnedIffDestroyed` | src/ball.rs:65-85 | an entity is queued for despawn iff one of its contacts collided and it is a block |
| `Balls.DespawnsDistinct` | src/ball.rs:55-83 | when each collider appears once in the pass, no entity is queued for despawn twice |
| `Balls.NoBlocksNoScore` | src/ball.rs:82-85 | colliders without the Block marker never score and are never despawned |
| `Balls.CollideBall` | src/ball.rs:55-93 | the inner loop: the velocity becomes the in-order response to every contact, the score rises by exactly the number of blocks hit, and exactly those blocks are queued for despawn |
| `Balls.TotalHitsMatchDespawns` | src/ball.rs:54-85 | over the whole pass, the score rise equals the number of queued despawns |
| `Balls.BallCollision` | src/ball.rs:47-95 | the outer loop: each ball's velocity responds to its own contacts, and score and despawn queue accumulate over all balls in order |
| `Paddles.SpawnPaddle` | src/paddle.rs:17-38 | the paddle spawns at (0, -240, 0) with a 120×20 collider |
| `Paddles.Direction` | src/paddle.rs:46-54 | -1 iff only A is held, +1 iff only D is held, 0 iff both or neither |
| `Paddles.NextX` | src/paddle.rs:56-60 | the result lies between the left and right bounds when they are ordered; the left bound wins when they cross; an unclamped step is old x + direction·500·Δt; a step past the right bound stops at the right bound, and a step below the left bound stops at the left bound |
| `Paddles.AtRestStays` | src/paddle.rs:46-62 | with no key held, a paddle within its bounds keeps its x |
| `Paddles.SpawnedPaddleAtRest` | src/paddle.rs:21-62 | an unsteered paddle at its spawn point stays at x = 0 when the walls leave room |
| `Paddles.MovePaddle` | src/paddle.rs:40-63 | only the paddle's translation.x changes, to NextX of its old x; y, z, rotation, scale and every other entity are unchanged |
| `Blocks.Fit` | src/blocks.rs:29-30 | the count is the i32-saturated floor of space over pitch: count·pitch ≤ space < (count+1)·pitch unless saturated |
| `Blocks.SpawnBlocks` | src/blocks.rs:20-57 | exactly rows×columns blocks when both are positive and none otherwise; entry k is the block of cell (k / columns, k % columns); every block has a 100×30 collider and z = 0 |
| `Blocks.SpawnedCell` | src/blocks.rs:32-37 | every (row, column) cell of the grid is an entry of the spawned sequence, in row-major order |
| `Blocks.FirstBlockGaps` | src/blocks.rs:21-22 | the first block's left edge is 20 from the left wall and its bottom edge 270 above the bottom wall |
| `Blocks.NeighbourGap` | src/blocks.rs:34-37 | horizontally and vertically adjacent blocks are exactly 5 apart |
| `Blocks.BlocksDisjoint` | src/blocks.rs:34-37 | two different cells are at least block size + 5 apart along some axis, so no two blocks overlap |
| `Blocks.BlockWithinWalls` | src/blocks.rs:21-37 | every spawned block lies within [LEFT_WALL+20, RIGHT_WALL-20], its top edge is ≤ TOP_WALL-20, and its bottom edge is ≥ BOTTOM_WALL+270 |
| `Resources.Decimal` | src/resources.rs:52 | the score's text is a canonical decimal numeral: non-empty, digits only, no leading zero |
| `Resources.DecimalRoundTrip` | src/resources.rs:52 | reading the rendered score back gives the score |
| `Resources.DecimalInjective` | src/resources.rs:52 | different scores render differently |
| `Resources.DecimalCanonical` | src/resources.rs:52 | every canonical numeral is the rendering of the number it denotes |
| `Resources.UpdateScoreboard` | src/resources.rs:50-53 | section 1 becomes the decimal score; section 0 and the number of sections are unchanged |
| `Resources.Text.ScoreText` | src/resources.rs:27-41 | the scoreboard text starts as the label "Score: " followed by an empty section |
| `Resources.Scoreboard.constructor` | src/resources.rs:17-20 | the score resource holds the score it is created with |
| `Resources.Commands.Despawn` | src/ball.rs:83 | a despawn is appended to the deferred command queue |
| `Resources.MovedTranslation` | src/resources.rs:60-62 | an entity with a velocity moves by vx·Δt and vy·Δt; z, rotation and scale are kept; an entity without one is untouched |
| `Resources.MovedAtRest` | src/resources.rs:58-62 | with Δt = 0 or zero velocity nothing moves |
| `Resources.MovedAdditive` | src/resources.rs:60-62 | integrating over a and then b seconds equals integrating over a + b |
| `Resources.ApplyVelocity` | src/resources.rs:57-64 | every entity is moved by its own velocity, independently of the others |
| `Game.World.constructor` | src/main.rs:18-53 | the world starts with score 0, the spawned paddle and ball, and the block grid in spawn order; only the ball has a velocity |
| `Game.World.Tick` | src/main.rs:24-31 | integration, then paddle movement, then the collision pass: non-paddle entities move by their velocity; only the paddle's translation.x changes, to NextX; the ball's velocity responds to the contacts; the score rises by exactly the blocks hit; given contacts that list each live collider once and flag exactly the block entities, only block entities are queued, never the paddle or the ball, none already queued, and the queue stays free of duplicates |

## Left out

- The engine's AABB overlap test (`collide`). Its rule for choosing a side is not in the game's code, so its verdict is an input of each `Contact`.
- Collision sounds, and loading the sound asset. These are audio and asset I/O.
- Textures, sprite colours, the camera, and the scoreboard's font, colour and layout. Only the text sections are modelled.
- The random number generator in `spawn_ball`. Its draw is a parameter in [-1, 1].
- Keyboard polling and the frame clock. They are a `Keys` parameter and a Δt parameter.
- The scheduler, applying deferred commands, `close_on_esc` and window setup. Despawns are queued and not applied. A queued block therefore still appears in the rest of the same pass, as it does in the engine.
- Game.World.Tick: a block queued in an earlier tick keeps its transform in the world's storage, because the queue is never applied. In the engine it is gone before the next tick. The model instead requires that no contact names an entity already in the despawn queue.
- The walls and their entities. The wall module is not part of this model.
- `single_mut` panics on a missing paddle or text entity. `MovePaddle` requires the paddle entity to exist.
- Indexing `sections[1]` panics on fewer sections, so `UpdateScoreboard` requires two.
- f32 rounding and NaN in integration, clamping and the grid layout.
- Scoreboard.constructor: `usize` wrap-around of the score is not modelled; the score is an unbounded `nat`.
- Game.World.Tick: models a single ball, the one `spawn_ball` creates. `BallCollision` itself handles any number of balls.
- `update_scoreboard` runs on the per-frame schedule, not in the fixed-timestep tick, so `Tick` does not call `UpdateScoreboard`.
