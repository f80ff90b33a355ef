# Per-frame simulation of the dash arcade game, in Dafny

This project models the game logic of `script.js`, a canvas arcade game. The player is a circle moved with w/a/s/d that can dash with the space bar. White blood cells enter from the right edge and drift left, sometimes dashing themselves. Touching an enemy costs a hit point unless the player is dashing through it. The model covers one animation frame and the key handlers:

- the player update (velocity from the held keys, or the locked dash velocity while a dash lasts; movement; clamping to the 800 × 600 field; the dash cooldown);
- the dash request and its direction precedence;
- the enemy step;
- the backward filtering loop that removes enemies that have left the field;
- the spawn gate;
- the collision pass that splices hit enemies out while it iterates;
- the decision whether another frame is requested.

The code mutates state in place, and the model follows that form:

- `Players.Player`, `Enemies.Enemy` and `Game.Game` are classes whose methods update their fields. The enemy list is a `seq<Enemy>` field that the methods reassign.
- `Player` and `Enemy` have value snapshots (`PlayerView`, `EnemyView`), and each of their methods is proved equal to a pure step function on the snapshot (`PlayerStep`, `DashStep`, `Advance`).
- The `Game` methods that change the enemy list are proved to leave it equal to a function of the list they started from: `Filter` by the expired flags for the update loop, `Filter` by `SpliceMask` of the overlap flags for the collision pass. `Tick` chains the two through the spawn gate.
- The properties the game promises are lemmas about those functions.

The two collection loops are proved against these specifications with loop invariants.

Clocks and randomness are parameters:

- `now` is the millisecond clock read by `Date.now()`.
- `timestamp` is the animation-frame time.
- `rolls` are the per-enemy dash draws, and `spawnRoll` is the spawn height draw.

The key handlers store `event.key.toLowerCase()` (script.js:264, 272), but the movement code also looks up `'ArrowUp'` and the other camel-case arrow names. Those names never match a stored key, so only w/a/s/d steer (`Keys.ArrowKeysNeverHeld`).

Modules:

| file | module | contents |
|---|---|---|
| `config.dfy` | `Config` | the game constants |
| `keys.dfy` | `Keys` | case folding, the held-key lookups |
| `player.dfy` | `Players` | the player record, its update and the dash request |
| `dash_timing.dfy` | `DashTiming` | runs of frames and dash requests, spacing of dashes |
| `enemy.dfy` | `Enemies` | the enemy record and its update |
| `seqs.dfy` | `Seqs` | removal of flagged elements (`Filter`), distinctness |
| `collisions.dfy` | `Collisions` | the hit test and the splice-while-iterating removal rule |
| `game.dfy` | `Game` | the global state, spawning, the two enemy loops, one frame |

The collision pass calls `splice(index, 1)` inside `forEach`. After a removal, the next enemy slides into the visited slot and is not tested in that pass. The model keeps this behaviour of the code rather than resolving every overlap in the frame. `Collisions.RemovesEveryHitIff` shows that the two agree exactly when no two overlapping enemies are neighbours in the array.

## Model

| member | source | states |
|---|---|---|
| `Players.ClampAxis` | script.js:203-206 | the clamped coordinate keeps the whole player circle inside [0, extent]; an in-range coordinate is unchanged, and one past either edge is pulled back to that edge |
| `Players.DashVelocity` | script.js:222-236 | the dash velocity has the dash speed as its length; it points up iff up is held, down iff down but not up is held, left iff left but neither up nor down is held, and right otherwise |
| `Players.Player.constructor` | script.js:25-35 | the player starts at (50, 300), at rest, not dashing, with the dash available |
| `Players.Player.Update` | script.js:170-212 | one player update changes the record exactly as `PlayerStep` (steer, move, recharge) |
| `Players.Player.SteerPhase` | script.js:172-196 | the dash-ending and walking-velocity phase changes the record exactly as `Steer` |
| `Players.Player.MovePhase` | script.js:199-206 | moving and clamping change the record exactly as `Move` |
| `Players.Player.RechargePhase` | script.js:209-211 | the cooldown phase changes the record exactly as `Recharge` |
| `Players.Player.AttemptDash` | script.js:214-238 | a dash request changes the record exactly as `DashStep` |
| `Players.StaysInField` | script.js:203-206 | after any update the player's x is in [15, 785] and y in [15, 585] |
| `Players.WalkingVelocity` | script.js:178-196 | when not dashing, each velocity component is -5, 0 or 5; right beats left and down beats up when both are held; there is no diagonal normalisation; the update does not start a dash |
| `Players.DashVelocityLocked` | script.js:172-177 | during a dash, before its end time, the velocity is kept; at or after the end time the dash ends and the player stops before moving |
| `Players.CooldownClearsOnlyWhenDue` | script.js:209-211 | an unavailable dash becomes available in an update iff the clock has reached the cooldown end; a dash request never makes it available |
| `Players.DashRequestGuard` | script.js:214-238 | a dash request changes nothing unless the player is not dashing and the dash is available; otherwise it starts a dash ending 150 ms later, with the cooldown ending 500 ms later, using the dash velocity and keeping the position |
| `Players.DefaultDashGoesRight` | script.js:222-236 | a dash requested with no key held has velocity (15, 0); an update before its end time keeps dx = 15, and an update at or after the end time ends the dash and stops the player |
| `DashTiming.NoDashDuringCooldown` | script.js:209-219 | after a dash at time t, no later request in a run with a non-decreasing clock starts a dash before t + 500 |
| `DashTiming.DashesAtLeastCooldownApart` | script.js:209-219 | two successful dash requests in any run of frames and requests with a non-decreasing clock are at least 500 ms apart |
| `Keys.ToLower` | script.js:264 | lower-casing keeps the length, turns each upper-case ASCII letter into its own lower-case letter and leaves every other character unchanged, so no upper-case letter is left |
| `Keys.ArrowKeysNeverHeld` | script.js:184-195 | in a set of lower-cased keys, up, down, left and right are held iff w, s, a and d are held |
| `Enemies.Enemy.constructor` | script.js:60-69 | a new enemy is not dashing and its original speed is its speed |
| `Enemies.Enemy.Update` | script.js:89-112 | one enemy update changes the record exactly as `Advance`, and returns true iff the enemy's right edge is left of the field afterwards |
| `Enemies.AdvanceMoves` | script.js:91-104 | an update moves the enemy left by its speed, or three times its speed while dashing; y, radius, type and original speed are unchanged, and a speed equal to the original speed stays equal |
| `Enemies.DashRules` | script.js:91-104 | a resting enemy starts a dash iff it is a white blood cell and its draw is below 0.01, and the dash then ends 100 ms later; a dashing enemy keeps dashing iff the clock is before the end time |
| `Enemies.AdvanceAllMovesLeft` | script.js:89-112 | over any run of updates an enemy with positive speed has moved at least its speed to the left per update |
| `Enemies.SpawnedEnemyLeaves` | script.js:127-130 | a spawned enemy that is never hit has expired after 281 updates, whatever the clock and draws |
| `Game.SpawnY` | script.js:128 | a draw in [0, 1) gives a spawn height in [20, 580) |
| `Game.Game.constructor` | script.js:11-38 | the game starts with the player at the start, no enemies, no held keys, 3 hit points and last spawn time 0 |
| `Game.Game.KeyDown` | script.js:263-269 | a key going down adds its lower-cased name to the held keys, and the space bar makes a dash request with the updated keys |
| `Game.Game.KeyUp` | script.js:271-273 | a key going up removes its lower-cased name from the held keys |
| `Game.Game.SpawnEnemy` | script.js:127-130 | exactly one new white blood cell is appended at x = 820, at the spawn height, with speed 3 and radius 20; the existing enemies are kept |
| `Game.Game.SpawnIfDue` | script.js:249-252 | an enemy is spawned iff more than 2000 ms of frame time has passed since the last spawn; the last spawn time then becomes this frame's time, so a second check at the same time does not spawn; otherwise nothing changes; the existing enemies' fields are untouched |
| `Game.Game.UpdateAt` | script.js:133-136 | one pass of the backward loop advances enemy i and splices it out iff its update reports it expired; the list then holds the untouched prefix before i followed by the survivors from i on |
| `Game.Game.UpdateEach` | script.js:132-142 | the backward loop advances every enemy once and leaves exactly the enemies whose update did not report them expired, in their original order |
| `Game.Game.UpdateEnemies` | script.js:132-142 | every enemy is advanced with its own draw; the list becomes the original list without the expired enemies; hit points are unchanged and no enemy is listed twice |
| `Seqs.FilterMembers` | script.js:132-142 | an enemy is kept iff it is at a position whose removal flag is false |
| `Seqs.FilterKeepsOrder` | script.js:132-142 | two kept enemies stay in their original relative order |
| `Collisions.HitTestMatchesDistance` | script.js:147-149 | the squared-distance test agrees with `dist - radius - 15 < 1` for the true Euclidean distance |
| `Collisions.SpliceMask` | script.js:145-166 | enemy i is removed iff it overlaps the player and the enemy before it was not removed |
| `Collisions.RemovalRulesDetermineMask` | script.js:145-166 | that rule determines the removed set completely |
| `Collisions.RemovalsAreHitsApart` | script.js:145-166 | only overlapping enemies are removed, and never two neighbours in one pass |
| `Collisions.RemovesEveryHitIff` | script.js:145-166 | every overlapping enemy is removed iff no two overlapping enemies are neighbours |
| `Collisions.SplicePassRemovesMask` | script.js:145-166 | visiting index 0, 1, 2, ... and splicing out each hit removes exactly the enemies `SpliceMask` selects, keeping the order of the rest |
| `Collisions.AdjacentOverlapsRemoveOne` | script.js:145-166 | of two neighbouring overlapping enemies only the first is removed; of three, the first and third |
| `Game.Game.CheckCollisions` | script.js:145-166 | the loop leaves the enemies without exactly the ones `SpliceMask` selects from the overlap flags; hit points drop by the number removed unless the player is dashing, when they are unchanged; they may go below zero |
| `Game.Game.MoveAndCollide` | script.js:254-255 | the enemy half of a frame: every enemy's fields become its advanced fields, the list between the two passes is the original without the enemies expired after moving, and the collision pass then removes the `SpliceMask` of the overlaps against those moved enemies, with the hit-point loss of `CheckCollisions` |
| `Game.Game.Tick` | script.js:242-260 | one frame updates the player as `PlayerStep` with the held keys, keeps the keys, appends a fresh enemy iff the spawn gate is open, advances every enemy of the resulting list once (their fields after the frame are the advanced ones) and removes the expired enemies, then removes the `SpliceMask` of the overlaps against the moved enemies, losing one hit point per removal unless dashing; another frame is requested iff hit points are positive |

## Left out

- Drawing is not modelled: the player and enemy sprites, `clearRect`, and the game-over overlay. The HUD text, `console.log` and `event.preventDefault` are not modelled either. They have no effect on the game state.
- `addEventListener` and `requestAnimationFrame` scheduling are not modelled. Key events are calls of `KeyDown` and `KeyUp`. The next frame is the Boolean result of `Tick`.
- `Math.random()` and `Date.now()` are parameters.
  - In the source the player update reads the clock twice, a dash request twice, and each enemy update its own time. The model gives a dash request one `now`. `Tick` passes a single `now` to the player update and to every enemy update of the frame, so it does not capture the clock advancing within a frame.
  - The dash-spacing lemmas assume the clock never goes back.
- `Math.cos`/`Math.sin` produce floating-point residue in the dash velocity; the model gives the four dash directions as exact axis vectors. Player coordinates are exact integers.
- `Math.hypot` is replaced by the exact squared-distance comparison. The equivalence with the square-root form is `Collisions.HitTestMatchesDistance`.
- `performAttack` (script.js:115-123) is not modelled: it can only log, and only for an enemy type that is never spawned. The unused `player.hp` field (script.js:34) is not modelled; the hit points live in the global `playerHP`.
- `toLowerCase` is modelled for ASCII letters only.
- `keyup` stores `false` under the key, and the model removes the key from the set instead. All lookups read the two the same way.
- `gameOver` is called from inside the collision pass when hit points reach zero. It only draws, so the model does not call it.
