# A verified model of one tick of the arcade game in `src/Main.java`

The game is a small Java arcade loop. The player is a ball on a ground line at
y = 540 in a 650 × 650 window. Space jumps from the ground. Holding or
pressing space in the air double-jumps once per flight, as soon as the
eight-tick cooldown has run out; so holding space from a standstill jumps and
then double-jumps by itself on the eighth tick. A and D move the ball sideways and
spin it; shift runs. Falling squares drop from the top of the window, and
sliding squares cross the ground from one side to the other. Every obstacle
that leaves the window is removed and scores one point.

This project models one iteration of the main loop, minus drawing, key
polling, randomness and sleeping. It has five modules:

- `Geometry`: the window bounds, the ground line, gravity and the `Vec2` value
  type.
- `Rotations`: Java's truncating `%`, the `Rotation` record, and its `next()`
  and `next(int)`. `next(int)` is an imperative method with its two loops. It
  is proved equal to a closed form, and for angles in [0, 359] that closed form
  is addition modulo 360.
- `Obstacles`: the two obstacle kinds as a datatype with a pure `Tick`. It also
  holds the spawned obstacles, the out-of-bounds test, and the pruning filter
  with its counting lemmas.
- `Players`: the player's half of a tick as pure functions on a
  `PlayerState`. `Move` covers jumps, gravity, integration and the ground
  clamp; `Turn` covers the wall clamps and the spin; `Step` is one whole tick.
  The module also holds the invariant kept between ticks and lemmas about
  single ticks and about runs of ticks.
- `Simulation`: the class `Game` with the instance fields of the Java class,
  plus the class `ResettableInt`. `Game.Tick` runs the iteration as in-place
  updates in the source's order. Each step is proved against the pure
  functions above.

Coordinates are exact reals. Every constant of the game is an integer or 1.5,
so IEEE rounding is not modelled.

The keys are a `Keys` value with four booleans. The outcome of the random draws
is a `SpawnRoll` value, which says whether a falling square appears and at
which integer cell, and whether a sliding square appears and from which side.

A jump from the ground adds -20 to the vertical velocity and no gravity on that
tick. Gravity is added only when the player was airborne before the tick
(`src/Main.java:285-287`). So one tick of a jump from (325, 540) ends at
(325, 520) with velocity (0, -20).

## Model

| member | source | states |
|---|---|---|
| Geometry.Vec2.Plus | src/Main.java:10-12 | vector addition, component by component; it has no contract of its own and is used by `Game.MovePlayer` to integrate the position |
| Rotations.JavaRem360 | src/Main.java:222 | Java's `value % 360` lies in (-360, 360), differs from `value` by a multiple of 360, and has the sign of `value` |
| Rotations.Rotation.Of | src/Main.java:221-223 | the record constructor keeps the angle congruent modulo 360 and on the same side of 0, and keeps an angle already in (-360, 360) as it is |
| Rotations.Rotation.Next | src/Main.java:225-227 | one unit step: a non-negative angle wraps from 359 to 0, a negative angle climbs by one |
| Rotations.Rotation.AdvanceClosedForm | src/Main.java:234-237 | `k` unit steps equal the angle plus `k` while that sum is not positive, and the sum modulo 360 once it is |
| Rotations.Rotation.NextTimes | src/Main.java:229-239 | `next(times)`, with its normalising loop and its unit-step loop, returns the closed form `Turned(times)`; from an angle in [0, 359] the result is `(value + times)` reduced into [0, 359] for every integer `times` |
| Rotations.Rotation.TurnedIsAddition | src/Main.java:229-239 | for an angle in [0, 359], the closed form is Euclidean addition modulo 360, negative step counts included |
| Rotations.Rotation.TurnedPeriodic | src/Main.java:229-239 | step counts that differ by 360 give the same rotation, so `next(0)`, `next(360)` and `next(-360)` leave it unchanged |
| Obstacles.Obstacle.Tick | src/Main.java:66-95 | a falling square keeps its column, drops 6 and grows its counter to at most 10; a sliding square keeps its row and direction and moves 6 in that direction; a counter in [0, 10] stays there |
| Obstacles.Obstacle.OutOfBounds | src/Main.java:377 | the removal test: left of 0, below HEIGHT or right of WIDTH; it has no contract of its own, and `SurvivorsMembership`, `SliderLifetime` and `FallerLifetime` state what it decides |
| Obstacles.FallingAfter | src/Main.java:66-68 | after `n` ticks a falling square has dropped `6n` in the same column, and its counter is `min(ticks + n, 10)` |
| Obstacles.SlidingAfter | src/Main.java:93-95 | after `n` ticks a sliding square has moved `6n` in its direction along the same row |
| Obstacles.NewSlider | src/Main.java:327-341 | a new sliding square is on the ground row, at x = 1 going right or at x = WIDTH going left |
| Obstacles.Spawned | src/Main.java:321-341 | the spawned list has one entry per successful draw, the falling square first, with counter 0 at the drawn cell; every entry is in bounds when the draws are in their ranges |
| Obstacles.SliderLifetime | src/Main.java:377 | a sliding square is out of bounds after exactly 109 ticks or more, from either side |
| Obstacles.FallerLifetime | src/Main.java:377 | a falling square in a column inside the window is out of bounds exactly when `y + 6n > HEIGHT` |
| Obstacles.Advanced | src/Main.java:368-371 | the list keeps its length and order, and element i is replaced by its tick |
| Obstacles.Survivors | src/Main.java:373-383 | the pruned list is no longer than the list; `SurvivorsMembership` and `SurvivorsAppend` state which obstacles stay and in what order |
| Obstacles.SurvivorsAppend | src/Main.java:373-383 | pruning distributes over concatenation, so the survivors keep their relative order |
| Obstacles.SurvivorsMembership | src/Main.java:373-383 | an obstacle survives exactly when it was in the list and is inside the window |
| Obstacles.SurvivorsOfInBounds | src/Main.java:373-383 | pruning a list that is already inside the window removes nothing |
| Obstacles.RemovedCount | src/Main.java:377-381 | the number of obstacles removed equals the number that are out of bounds |
| Obstacles.AdvanceThenPrune | src/Main.java:368-383 | after advancing and pruning, every remaining obstacle is inside the window with its counter in [0, 10] |
| Players.OnGround | src/Main.java:216-218 | the player stands on the ground exactly when its y equals the ground line; it has no contract of its own, and `Move` and `GroundClamp` state when it holds after a tick |
| Players.Move | src/Main.java:274-318 | the player ends on or above the ground, and on it exactly when the clamp fired; the horizontal velocity and the angle are unchanged; a landing restores vertical rest, the double jump and the cooldown of 8; otherwise the cooldown drops towards 0 and the flag is set by a double jump and never cleared |
| Players.Turn | src/Main.java:344-364 | the player ends between the walls; only the horizontal position, the horizontal velocity and the angle can change; at a wall the horizontal velocity becomes 0 and the angle is kept; away from the walls position and velocity are unchanged |
| Players.Step | src/Main.java:274-364 | after any tick the player is on or above the ground and between the two walls |
| Players.StartInv | src/Main.java:116-118 | the starting state satisfies the invariant kept between ticks |
| Players.StepInv | src/Main.java:274-364 | a tick keeps the invariant: on or above the ground, between the walls, horizontal velocity 0, cooldown in [0, 8], angle in [0, 359], and standing on the ground only at vertical rest with the double jump and cooldown restored |
| Players.JumpsExclusive | src/Main.java:275-283 | a jump from the ground and a double jump never fire in the same tick |
| Players.GroundedJump | src/Main.java:274-287 | a jump from the ground makes the acceleration exactly (0, -20) with no gravity, so the velocity becomes (0, -20) and the player rises 20 (30 while running), airborne, with the double jump unused and the cooldown at 7 |
| Players.FirstJump | src/Main.java:274-311 | from the starting position, one tick with only space held ends at (325, 520) with velocity (0, -20) |
| Players.GroundedIdle | src/Main.java:274-364 | standing on the ground without space, A or D is a fixed point of the tick |
| Players.AirborneGravity | src/Main.java:285-294 | an airborne tick accelerates by (0, 2), or by (0, -18) when a double jump fires, and without a landing that becomes the new velocity |
| Players.GroundClamp | src/Main.java:313-318 | when the clamp fires, the player stands on the ground with vertical velocity 0, the double jump restored and the cooldown back at 8; otherwise the player is strictly above the ground, the cooldown has dropped towards 0 and the flag only grew |
| Players.WallClamp | src/Main.java:352-362 | at a wall the player is held at 0 or WIDTH with horizontal velocity 0 and does not turn |
| Players.SpinAwayFromWalls | src/Main.java:344-364 | away from the walls the angle changes by -20 for D and +20 for A, modulo 360 |
| Players.OppositeKeysCancel | src/Main.java:298-350 | holding A and D together leaves the horizontal position and the angle unchanged |
| Players.DoubleJumpGate | src/Main.java:279-283 | a double jump needs the player airborne, the flag clear and the cooldown at most 1 before its decrement, and it sets the flag unless the tick ends in a landing |
| Players.RunInv | src/Main.java:273-364 | the invariant holds after any number of ticks |
| Players.AtMostOneDoubleJump | src/Main.java:279-318 | over a run whose ticks stay in the air except possibly the last, which may land, at most one double jump fires, and none once the flag is set |
| Players.NoEarlyDoubleJump | src/Main.java:279-283 | no double jump fires while the cooldown has more ticks to run than the run is long |
| Simulation.ResettableInt.constructor | src/Main.java:257-260 | the counter starts at its initial value |
| Simulation.ResettableInt.Reset | src/Main.java:262-264 | the counter is back at its initial value |
| Simulation.Game.constructor | src/Main.java:110-118 | a new game starts in the starting state, with no obstacles and score 0, and satisfies the invariant |
| Simulation.Game.Accelerate | src/Main.java:274-294 | the in-place updates leave the velocity, the flag and the decremented cooldown as the tick's description says |
| Simulation.Game.MovePlayer | src/Main.java:274-318 | the player's fields become `Move` of their old values, and the key flags are those of the tick |
| Simulation.Game.Spawn | src/Main.java:321-341 | the list grows by exactly the spawned obstacles, at its end |
| Simulation.Game.TurnPlayer | src/Main.java:344-364 | the player's fields become `Turn` of their old values, driven by the key flags |
| Simulation.Game.AdvanceObstacles | src/Main.java:368-371 | the list keeps its length and order, and element i is replaced by its tick |
| Simulation.Game.PruneObstacles | src/Main.java:373-383 | the in-place removal leaves exactly the survivors of the list, and the score grows by the number removed |
| Simulation.Game.Tick | src/Main.java:273-383 | one iteration keeps the game's invariant; the player moves by `Step`; the list becomes the survivors of the advanced list with the spawned obstacles appended; and the score grows by the number of those out of bounds |

## Left out

- Drawing, the score display, the beep, `sleep` and the endless loop. `Game.Tick` is one iteration, and `Players.Run` chains the player's part over a sequence of key states.
- Key polling: the keys of a tick are the `Keys` argument.
- `Math.random`: the outcome of the draws is the `SpawnRoll` argument. `Obstacles.Feasible` states the ranges the casts to `int` can produce.
- IEEE-754 doubles: coordinates are exact reals.
- 32-bit `int` overflow of `score` and of the step count of `next(int)`: integers are unbounded.
- `Vec2.withX`, `withY`, `mul`, `mulX` and `mulY` are not separate members. Their uses are written as record updates and per-component arithmetic, which compute the same vectors.
- The `Movement` interface is never used by the loop.
- `skyRotation` and `horizontalAcceleration` are fields the loop never updates or reads.
- `movingLR()` is never called by the loop.
- `groundY`, `gravity`, `WIDTH` and `HEIGHT` are never reassigned, so they are constants.
- `Obstacle` is an abstract class with two subclasses in the source; here it is a datatype with two constructors, since every tick builds a new obstacle.
- `Obstacles.Survivors`: its own contract states only the length bound. `Obstacles.SurvivorsMembership` states which obstacles survive.
