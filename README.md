# Theo Runner: the simulation core in Dafny

This project models the game logic of Theo Runner. It is an endless runner on an HTML canvas. Theo the cat runs along the ground and jumps over oranges and shopping bags. Tunnels keep him safe, and a tuna is worth 100 points. The simulation is one single-threaded state machine over module-level state:
- the mode (`'start'`, `'playing'`, `'gameover'`);
- the raw score and the best score;
- the scroll speed and the screen-shake countdown;
- the spawn cursor `nextSpawnX`;
- Theo's record;
- three object lists: obstacles, collectibles and tunnels.

The model has two layers:

- **Specification functions on values.** `Session.State` holds the whole game state. `Session.Inv` is its invariant. Each transition of the source is a function of the state:
  - `Tick.Jumped` models `jump`;
  - `Session.Restarted` models `restartGame`;
  - `Tick.Stepped` models `update`, composed of `Tick.Moved`, `Spawning.Spawned`, `Collisions.Collided` and `Tick.Scored`;
  - `Session.Ended` models `gameOver`.

  Lemmas beside them state what the game promises.
- **The imperative game.** `Game.Game` is a class with one field per module-level variable. Its methods mutate those fields the way the source does. Each method is proved to leave the object in the state given by its specification function. `World.MoveObjects` keeps the source's backward index loop with splicing. `Collisions.CollectLoop` keeps the collection loop. `InTunnel` and `HitsObstacle` keep the two searches of `checkCollisions`.

Module layout: `Config` (the CONFIG constants), `JsMath`, `Geometry` (rectangles, `boxCollision`), `World` (object lists, `moveObjects`), `Session` (state, invariant, restart, game over), `Physics` (speed ramp, gravity, animation), `Spawning` (`spawnObjects`), `Collisions` (`checkCollisions`), `Tick` (`jump`, `update`, input sequences), `Game` (the class).

Numbers are exact reals, not IEEE doubles. `Math.random()` draws are parameters: `Spawning.Draws` holds the category draw, the orange/bag draw, the tuna draw and the gap draw, each in [0, 1). Sound requests go into a log of `Sound` events: `jump`, `collect` and `hit`. The log is the ordinary field `sounds` of `Session.State`. In the class it is the ghost field `Game.Game.sounds`, because the program itself keeps no such list.

Behaviour worth knowing:
- `KeyR` restarts the round from any mode (js/game.js:131-133), including in the middle of a running round (`Session.Restarted`).
- A tick that ends the round still runs `score++` and the shake decay (js/game.js:276-285). So the best score is computed from the score before that increment, and the shake ends the tick at 14 (`Tick.StepEndsRound`).
- A spawn makes either a tunnel with a tuna inside, or an obstacle with a tuna above it when the tuna draw is below 0.3 (js/game.js:301-339, `Spawning.Spawned`).
- The spawner fires whenever the cursor is at or left of the right edge (js/game.js:298).
- In exact arithmetic, with a base speed of 5, an increment of 0.001 and a cap of 12, the speed reaches the cap at tick 7000 (`Physics.SpeedMilestones`). See "## Left out" for the same count in doubles.
- A jump from the ground lasts 39 ticks in exact arithmetic. Theo is airborne through tick 38, at y = 308.6, and lands on tick 39 (`Physics.JumpAirtime`).

## Model

| member | source | states |
|---|---|---|
| Geometry.BoxCollision | js/game.js:386-391 | strict overlap: boxes that only share an edge (left/right or top/bottom) never collide |
| Geometry.CollisionSymmetric | js/game.js:386-391 | the overlap test gives the same answer with its arguments swapped |
| Geometry.CollisionIffCommonInterior | js/game.js:386-391 | for boxes with positive size, the test holds exactly when some point lies strictly inside both |
| World.Advance | js/game.js:288-295 | after moveObjects the list is no longer than before and no survivor has `x + width < 0` |
| World.AdvanceFrom | js/game.js:289-294 | the backward loop's suffix invariant: advancing `s[i..]` yields, in order, the shifted elements at exactly the surviving indices |
| World.AdvanceExact | js/game.js:288-295 | pruning exactness: the removed elements are exactly those whose new `x + width < 0`; survivors keep their order; each survivor equals the original shifted by `speed`, so its `x` drops by exactly `speed` and its `y`, size, kind and flag are unchanged |
| World.AdvanceKeepsVariant | js/game.js:288-295 | scrolling keeps each list to its own kind of object |
| World.MoveObjects | js/game.js:288-295 | the backward loop with `splice` computes exactly `Advance` of the list |
| Session.Initial | js/game.js:52-75 | the load-time state satisfies the invariant: mode `'start'`, score 0, Theo grounded, best score as stored |
| Session.Restarted | js/game.js:171-184 | restart gives mode `'playing'`, score 0, base speed, grounded Theo and empty lists; it resets the spawn cursor to 500 and the shake to 0; it keeps the animation counter, the reduced-motion flag and the best score, and keeps the invariant |
| Session.Ratchet | js/game.js:401-406 | the new best score is at least the old best and at least `floor(score/10)`, and equals one of the two |
| Session.Ended | js/game.js:393-407 | gameOver sets `'gameover'`, logs a hit and sets the shake to 15 only without reduced motion; the best score becomes exactly the larger of the old best and `floor(score/10)`; nothing else changes (score, Theo, speed, lists, cursor, reduced-motion flag) |
| Physics.Ramp | js/game.js:238 | the ramped speed never exceeds the cap, never decreases a speed at or below the cap, and is either the cap or the speed plus the increment |
| Physics.SpeedAfterClosedForm | js/game.js:238 | after n ramps from the base speed the speed is `min(maxSpeed, baseSpeed + n * speedIncrement)` |
| Physics.SpeedMilestones | js/game.js:238 | the speed is 8.5 after 3500 ticks, below the cap before tick 7000 and at the cap from tick 7000 on |
| Physics.Fall | js/game.js:241-249 | when `y + vy + gravity` reaches the ground Theo lands: `y = groundY`, `vy = 0`, not jumping; otherwise `vy` grows by gravity and `y` by the new `vy`; so `y <= groundY` afterwards, and a grounded Theo stays where he is |
| Physics.MoveTheo | js/game.js:241-256 | the in-place gravity, ground clamp and animation steps on Theo's record give exactly `Animate(Fall(theo), speed)` |
| Physics.JumpArc | js/game.js:241-249 | after a take-off from the ground with `vy = jumpForce`, for n <= 38 ticks Theo is at `groundY - 12n + 0.3n(n+1)` with `vy = jumpForce + n * gravity`, and for 1 <= n <= 38 strictly above the ground |
| Physics.JumpAirtime | js/game.js:241-249 | a jump from the ground is airborne at tick 38 (y = 308.6) and lands exactly at tick 39 |
| Physics.Animate | js/game.js:252-256 | the frame stays in {0,1}; `frameTime` stays in [0, 10]; a frame flip resets `frameTime` to 0; position and velocity are untouched |
| Spawning.NewObstacle | js/game.js:318-328 | a new obstacle starts at the right edge and is an orange exactly when its draw is above 0.5 |
| Spawning.Gap | js/game.js:342 | for a draw in [0,1) the gap lies in [minObstacleGap, maxObstacleGap) |
| Spawning.Spawned | js/game.js:297-347 | with the cursor beyond the right edge only the cursor moves, by `-speed`; otherwise a draw below 0.15 appends one tunnel and its tuna, any other draw appends one obstacle and a tuna only when the tuna draw is below 0.3; the cursor is re-armed to `W + gap*(baseSpeed/speed) - speed`; nothing else changes |
| Spawning.SpawnAppends | js/game.js:297-347 | existing entries are untouched; at most one tunnel or obstacle and at most one tuna are added |
| Spawning.RearmedRange | js/game.js:341-346 | the re-armed cursor lies in `[W + min*(base/speed) - speed, W + max*(base/speed) - speed)` |
| Spawning.SpawnKeepsVariants | js/game.js:302-339 | spawning appends tunnels to tunnels, tuna to collectibles and obstacles to obstacles |
| Collisions.Hitbox | js/game.js:350-355 | the hitbox has positive size, lies strictly inside Theo's sprite horizontally and from below the sprite's top down to Theo's feet |
| Collisions.CollectAll | js/game.js:377-383 | the collection pass keeps every rectangle and changes an entry exactly when it is an untaken tuna that Theo touches |
| Collisions.NewlyCollected | js/game.js:377-383 | the number of tuna taken in one pass never exceeds the list length |
| Collisions.CountTaken | js/game.js:377-383 | the number of tuna taken in one pass is exactly the number of positions holding an untaken tuna that Theo touches |
| Collisions.CollectLoop | js/game.js:377-383 | the loop flags exactly the touched untaken tuna and adds exactly 100 per tuna to the score |
| Collisions.Collided | js/game.js:349-384 | checkCollisions either keeps the mode or ends the round; it never lowers the score or the best score, only appends sounds, keeps the list length of collectibles, and leaves Theo, speed, cursor, obstacles and tunnels unchanged |
| Collisions.CollectedWithoutHit | js/game.js:358-383 | without an unsheltered hit the collectibles become `CollectAll`, and the score and sound log grow by 100 and one collect sound per touched untaken tuna |
| Collisions.ShelterPrecedence | js/game.js:358-374 | when the hitbox overlaps any tunnel, no obstacle can end the round that tick; collection still happens |
| Collisions.HitEndsRound | js/game.js:367-374 | an unsheltered obstacle hit is exactly gameOver and returns before any tuna is scored |
| Collisions.NothingCollected | js/game.js:377-383 | the pass scores nothing exactly when no untaken tuna is touched |
| Collisions.CollectOnce | js/game.js:378-379 | score-once: a second pass over the collected list takes nothing and changes nothing |
| Collisions.CollectKeepsVariant | js/game.js:377-383 | collecting leaves only tuna in the collectibles list |
| Collisions.GroundedTheoHitsOrange | js/game.js:349-374 | a grounded Theo meeting an orange at x = 100 outside any tunnel ends the round |
| Collisions.ShelteredTheoTakesTuna | js/game.js:349-384 | the same orange inside a tunnel with a tuna does not end the round; the tuna is taken and scores 100 |
| Tick.Jumped | js/game.js:149-163 | after any jump the mode is `'playing'`; the best score and reduced-motion flag are kept; at most one jump sound is logged |
| Tick.JumpWhenGrounded | js/game.js:154-158 | in `'playing'` with Theo not jumping, the jump sets `vy = jumpForce`, `isJumping` and logs one jump sound; nothing else changes |
| Tick.JumpFromStart | js/game.js:149-158 | from `'start'` a jump sets `'playing'` and jumps: `vy = jumpForce`, `isJumping`, one jump sound; nothing else changes |
| Tick.JumpWhileAirborne | js/game.js:154 | a jump while playing and already jumping changes nothing |
| Tick.JumpAfterGameOver | js/game.js:149-163 | in `'gameover'` a jump is exactly a restart: Theo grounded and not jumping, score 0, best score kept |
| Tick.JumpPreservesInv | js/game.js:149-163 | jump keeps the invariant and the best score |
| Tick.RestartPreservesInv | js/game.js:171-184 | restart keeps the invariant and the best score |
| Tick.Moved | js/game.js:238-261 | the first half of update keeps the speed at or below the cap and never lowers it, leaves Theo at or above the ground, never lengthens a list, and changes nothing but speed, Theo and the three lists |
| Tick.Scored | js/game.js:276-285 | the end of a tick adds one point, lowers a positive shake by exactly one and keeps it non-negative, and changes nothing else |
| Tick.Stepped | js/game.js:234-286 | update changes nothing unless the mode is `'playing'`; it never lowers the best score; it only appends to the sound log |
| Tick.StepPreservesInv | js/game.js:234-286 | update keeps the invariant: the speed band, the ground clamp, grounded when not jumping, frame in {0,1}, shake non-negative, one kind per list |
| Tick.StepSpeedAndGround | js/game.js:238-249 | the speed never decreases and stays within [baseSpeed, maxSpeed]; afterwards `y <= groundY`; the best score never decreases |
| Tick.StepEndsRound | js/game.js:276-285 | on the tick that ends the round the score still rises by 1, the best score uses the pre-increment score, and the shake is 14 without reduced motion; later ticks change nothing |
| Tick.StepScore | js/game.js:234-286 | a tick that keeps the round going adds 1 plus 100 for each tuna taken from the scrolled and refilled list, logs one collect sound per tuna, and flags those tuna |
| Tick.Apply | js/game.js:126-147 | each input (jump, restart, frame) keeps the invariant |
| Tick.Run | js/game.js:700-704 | any sequence of inputs keeps the invariant |
| Tick.RunMonotone | js/game.js:393-407 | over any input sequence the best score never decreases, the speed stays in band, Theo stays at or above the ground, and the sound log only grows |
| Game.Game.constructor | js/game.js:52-75 | the object starts in the load-time state |
| Game.Game.Jump | js/game.js:149-163 | the jump input mutates the fields into `Jumped` of the old state and keeps the invariant |
| Game.Game.RestartGame | js/game.js:171-184 | the fields become `Restarted` of the old state |
| Game.Game.Update | js/game.js:234-286 | the fields become `Stepped` of the old state; nothing changes outside `'playing'`; the speed does not decrease and stays capped; Theo stays at or above the ground; the best score does not decrease |
| Game.Game.Integrate | js/game.js:238-261 | the first half of update leaves the state as `Moved`: the ramp, Theo's physics via `MoveTheo`, and three moveObjects calls |
| Game.Game.SpawnObjects | js/game.js:297-347 | the pushes and cursor update leave the state as `Spawned` |
| Game.Game.InTunnel | js/game.js:357-364 | the tunnel search with `break` finds whether any tunnel overlaps the hitbox |
| Game.Game.HitsObstacle | js/game.js:367-373 | the obstacle search finds whether any obstacle overlaps the hitbox |
| Game.Game.CheckCollisions | js/game.js:349-384 | the fields become `Collided` of the old state |
| Game.Game.CollectTuna | js/game.js:377-383 | the collection loop flags the touched tuna, adds 100 per tuna and logs one collect sound each |
| Game.Game.GameOver | js/game.js:393-407 | the fields become `Ended` of the old state |

## Left out

- Rendering (`render` and the `draw*` helpers, js/game.js:410-697) is pure canvas drawing.
- Audio synthesis (`playSound`, js/game.js:187-231) and the sound toggle (`toggleSound`, js/game.js:165-169) are Web Audio calls. The model records each `playSound` request in the sound log, whether or not sound is enabled.
- DOM and storage I/O are left out: the `localStorage` load and save of the best score, the `textContent` writes, and the `matchMedia` query. The stored best score and the reduced-motion flag are constructor parameters.
- Event wiring, `init`, `resizeCanvas` and the `requestAnimationFrame` loop (js/game.js:81-147, 700-711) are host plumbing. `Tick.Run` stands in for the loop as a sequence of inputs.
- Clouds (js/game.js:103-110, 264-270) are cosmetic. They never take part in collisions or scoring.
- Numbers are exact reals, so IEEE-754 rounding of 0.6 and 0.001 is not modelled. No result is claimed to be float-exact.
- Physics.SpeedMilestones: the cap at tick 7000 holds in exact arithmetic only. In doubles, 7000 additions of 0.001 to 5 leave the speed just under 12 (about 11.999999999998785), so the program reaches the cap one tick later, at tick 7001.
- Physics.JumpAirtime: the 39-tick jump and the height 308.6 hold in exact arithmetic only. In doubles the height at tick 39 is just under 320 (about 319.99999999999983), so the program lands Theo one tick later, at tick 40.
- `canvas.width` is set by the page, and the page is not part of this model. The model uses the constant 800, following the 800:400 layout in `resizeCanvas` (js/game.js:116-123). The proofs do not depend on the value.
- `theo.x` is never assigned, so the constant `TheoX` stands in for it.
- World.MoveObjects returns the pruned list instead of splicing a shared array in place; `Game.Game.Integrate` assigns the result back to the field.
- World objects are values in sequences, not shared JavaScript objects. The source never aliases them: each object sits in exactly one list.
- `Game.Game.Integrate` and `Game.Game.CollectTuna` compute on local copies and then write the fields back. The source updates the fields one by one, but nothing reads them in between, so the end state is the same.
- `checkCollisions` searches with loops that call `gameOver` and `return` from inside. The model runs each search as a query method first and then acts on the result. This visits the same objects in the same order.
