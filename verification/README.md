# ShooterEnv game logic in Dafny

A model of the game-logic state machine of `ShooterEnv`, a small arcade
shooter exposed as a reinforcement-learning environment. A gun at the bottom
of a 600 x 800 playfield turns left, turns right or fires. Enemies (radius 20)
and friends (radius 15) fall from the top. `reset` builds a fresh world.
`step(action)` advances it one tick, in a fixed order:

1. apply the action (turn the gun by 5 degrees, clamped to [-90, 90], or fire);
2. tick the spawn timer and, every 120th tick, spawn an enemy or a friend;
3. move the bullets and remove those that left the playfield;
4. move enemies and friends down by 2 and remove those past the bottom edge;
5. resolve bullet/enemy and bullet/friend collisions, bullet by bullet;
6. set the terminal flags (`done`, `truncated`) and count the frame;
7. encode the 5-element observation.

The world is an immutable `State` record. Bullets, enemies and friends are
insertion-ordered sequences. Every phase is a pure function, and `Step`
composes them. The random draws are parameters: `ResetDraws` for `reset`,
and `Draws` for a tick's spawn position and enemy-or-friend roll. The fired
bullet's velocity `(dx, dy)` is also a parameter.

Modules (one file each):

- `Seqs` (seqs.dfy): order-preserving `Filter`, `Count` and `MapSeq`, and their lemmas.
- `Entities` (entities.dfy): the constants; `Bullet` and `Target`; motion, bounds and touch tests.
- `World` (world.dfy): `State`, the observation, `Reset`, and the invariant `Valid`.
- `Collision` (collision.dfy): the per-bullet collision fold and its exact characterisation.
- `Engine` (engine.dfy): the phases, `Step`, and `Run` over a sequence of ticks.
- `Rewards` (rewards.dfy): the reward register as a trace of events, and "last write wins".
- `Cull` (cull.dfy): the bullet loop written as `ShooterEnv.step` writes it, proved equal to the functional phase.
- `Properties` (properties.dfy): the invariant, the episode clock, spawn cadence, culling, escapes, score and observation.

## Where the code and its description differ

The model follows the code in each case below.

- `friends_killed` is never incremented. The friendly-kill branch of the
  termination test can therefore never fire (`Properties.StepDone`, `Properties.EpisodeClock`).
- The reward register is never cleared at the start of a tick. A tick in which
  no rule fires returns the previous tick's reward (`Rewards.QuietTickKeepsReward`).
- A bullet that has already been removed keeps checking the remaining enemies
  and friends of the tick. One bullet can destroy an enemy and a friend at once (`Properties.OneBulletTwoKills`).
- A later bullet inside an already-destroyed object survives (`Properties.LaterBulletSpared`).
- Hit events interleave bullet by bullet: enemy hits of bullet 1, friend hits of
  bullet 1, enemy hits of bullet 2, and so on. So the reward after collisions is
  the last hit in that order, not "friend hit beats enemy hit" (`Rewards.StepReward`).
- Actions other than 0, 1 and 2 are silently ignored rather than rejected.

## Model

| member | source | states |
|---|---|---|
| `Engine.Act` | shooterenv.py:68-80 | the angle stays in [-90, 90]; action 0 gives the smaller of 90 and angle+5, action 1 the larger of -90 and angle-5, and neither touches anything else; action 2 appends one bullet at the player's position and sets the reward to -2; any other action changes nothing |
| `Properties.RotateRoundTrip` | shooterenv.py:68-71 | turning left then right (or right then left) restores the state unless the first turn was clamped |
| `Engine.Spawn` | shooterenv.py:83-97 | the timer goes up by one; exactly one object is added iff the new timer is a multiple of 120; it is appended at y=30 with the drawn x, as an enemy of radius 20 when the roll is below 0.7, else as a friend of radius 15; nothing else changes |
| `Properties.SpawnCadence` | shooterenv.py:83-97 | in the tick after n ticks from a reset, the spawn phase adds one object iff n+1 is a multiple of 120 |
| `Properties.BulletCulling` | shooterenv.py:100-105 | after motion every bullet lies in [0, 600] x [0, 800]; a bullet survives iff it is a moved bullet that passed the bounds test; the number removed equals the number of moved bullets outside the box |
| `Properties.BulletCullingOrder` | shooterenv.py:100-105 | culling keeps the survivors' relative order: culling two lists laid end to end gives the survivors of each, in order |
| `Engine.MoveBullets` | shooterenv.py:100-105 | the bullet phase never adds bullets, and every bullet it keeps lies inside the closed playfield [0, 600] x [0, 800] |
| `Entities.OutOfBoundsIsOutsideBox` | shooterenv.py:103-104 | the removal test is exactly "outside the closed playfield rectangle" |
| `Cull.CullBullets` | shooterenv.py:100-105 | the in-place loop over a snapshot, moving each bullet and removing it from the live list, yields the functional phase's survivors, all inside the playfield |
| `Engine.MoveTargets` | shooterenv.py:108-120 | `enemy_uk` rises by the number of enemies removed; the score falls by 5 per escape; nothing but the two lists, the counter, the score and the reward changes |
| `Engine.Drop` | shooterenv.py:108-111 | the fall of one list never adds objects, and no object it keeps is below y = 800 (the same loop for friends is at lines 116-119) |
| `Properties.DropSurvivors` | shooterenv.py:108-120 | after the fall no enemy or friend has y > 800; an object survives iff it is a fallen object still above the bottom edge |
| `Properties.EscapeBookkeeping` | shooterenv.py:108-120 | `enemy_uk` rises by the number of fallen enemies past the bottom; score falls by 5 per removed enemy; the friends list has no influence on score or counter |
| `Collision.Shot` | shooterenv.py:123-145 | one bullet's turn: score rises by 10 per enemy removed; every remaining enemy and friend was alive before and is not touched by the bullet |
| `Collision.Collide` | shooterenv.py:123-145 | score rises by exactly 10 per enemy removed over the whole phase (friends never move the score); survivors come from the inputs and no list grows |
| `Engine.CollidePhase` | shooterenv.py:123-145 | the collision phase on the state: an enemy (a friend) stays iff no bullet touches it, in order; the score rises by 10 per enemy removed; surviving bullets come from the list; only bullets, the two lists, score and reward change |
| `Collision.CollideSurvivors` | shooterenv.py:123-145 | an enemy (a friend) survives the collision phase iff no bullet that survived motion is within its radius (squared distance below radius squared); survivors keep their order |
| `Collision.CollideBulletsExact` | shooterenv.py:123-145 | a bullet survives iff it touches no enemy and no friend still alive at its turn, i.e. not touched by an earlier bullet; survivors keep their order |
| `Collision.CollideBullets` | shooterenv.py:123-145 | no surviving bullet touches a surviving enemy or friend; a bullet touching nothing alive at the start of the phase survives |
| `Properties.OneBulletTwoKills` | shooterenv.py:123-145 | in one concrete configuration, a single bullet touching an enemy and a friend destroys both; score +10 and the register ends at -100 |
| `Properties.LaterBulletSpared` | shooterenv.py:123-134 | in one concrete configuration, a second bullet inside an enemy the first bullet destroyed survives; the enemy is counted once (the general rule is `Collision.CollideBulletsExact`) |
| `Properties.StepSurvivors` | shooterenv.py:66-145 | after a tick, the enemies (friends) are exactly the spawned-or-present objects that fell, stayed above the bottom, and are touched by no bullet that survived motion |
| `Engine.Settle` | shooterenv.py:149-160 | `done` and `truncated` never go back to false; an ending or truncating tick leaves -150 in the register; otherwise the register is untouched |
| `Engine.StepFlags` | shooterenv.py:149-154 | both clocks rise by one; `done` iff it was done, or `enemy_uk` >= 10, or `friends_killed` >= 2; `truncated` iff it was truncated or the incremented frame count exceeds 5000 |
| `Engine.Step` | shooterenv.py:66-170 | the observation has 5 elements with the angle first; the returned reward and flags are the state's; `done` and `truncated` are sticky; `friends_killed` never changes; an ending tick returns -150 |
| `Engine.Run` | shooterenv.py:66-170 | a run of n ticks advances the frame count by n, keeps `friends_killed`, and keeps `done` once set |
| `Properties.StepDone` | shooterenv.py:149-150 | on a reachable state a tick ends the episode iff it had ended or `enemy_uk` reaches 10; a friend kill never ends it |
| `Properties.DoneIsFinal` | shooterenv.py:149-160 | once done, every later tick is done and returns -150 |
| `Properties.EpisodeClock` | shooterenv.py:152-154 | after n ticks from a reset both clocks read n, `friends_killed` is 0, and the episode is truncated iff n > 5000: the 5001st tick, not the 5000th |
| `Rewards.LastWriteWins` | shooterenv.py:80-160 | writing a sequence of events into the register leaves the last event's reward, or the old value if there were none |
| `Rewards.OverwriteAppend` | shooterenv.py:80-160 | writing two batches of events is writing their concatenation |
| `Rewards.ArmedReward` | shooterenv.py:72-80 | the action phase writes -2 iff it fires and otherwise leaves the register |
| `Rewards.MoveTargetsReward` | shooterenv.py:108-120 | the motion phase writes -40 if an enemy escaped, then +20 if a friend passed the bottom |
| `Rewards.CollideReward` | shooterenv.py:123-145 | the collision phase leaves in the register the last of its hit events (+160 enemy hit, -100 friend hit), bullet by bullet, or the old value if there were none |
| `Rewards.StepReward` | shooterenv.py:66-160 | a tick's reward is -150 if it is done or truncated; otherwise it is the last rule fired in order (fire, escape, friend pass, collision hits), or the previous tick's reward |
| `Rewards.QuietTickKeepsReward` | shooterenv.py:159-160 | a tick in which no rule fires and the episode goes on returns the previous tick's reward |
| `Properties.StepScore` | shooterenv.py:108-134 | every enemy that leaves the list in a tick either escaped (-5, counted in `enemy_uk`) or was shot (+10); nothing else moves the score |
| `Properties.StepKeepsValid` | shooterenv.py:66-170 | a tick keeps the reachable-state invariant: angle in [-90, 90], bullets in the playfield, objects of the right radius between y=30 and the bottom with x in [30, 570], `friends_killed` 0, the two clocks equal, `enemy_uk` >= 10 implies done, truncated iff frames > 5000, ended implies reward -150 |
| `Properties.RunKeepsValid` | shooterenv.py:66-170 | any run of ticks from a reachable state keeps the invariant |
| `World.Reset` | shooterenv.py:172-210 | no bullets; exactly one enemy (radius 20) and one friend (radius 15), both at y=30 at the drawn x; score, `enemy_uk`, `friends_killed`, frames, spawn timer and reward 0; not done nor truncated; angle is the drawn magnitude, negated when the sign roll is above 0.5; the state is valid when the draws are in range; the observation is [angle, friend x, 30, enemy x, 30] |
| `World.Sight` | shooterenv.py:163-167 | the observation sees a list's first (oldest surviving) element, or nothing iff the list is empty |
| `World.Observe` | shooterenv.py:163-167 | the observation has length 5 with the angle first; an empty list reads back as absent (-1, -1) |
| `Properties.ObservationRoundTrip` | shooterenv.py:163-167 | on a reachable state the observation decodes to the angle, the first friend and the first enemy, or their absence |
| `Properties.ObservationBounds` | shooterenv.py:27-28 | on a reachable state each slot lies in the declared observation box: angle in [-90, 90], x in [-1, 600], y in [-1, 800] |

## Left out

- Rendering: `draw_game`, `render`, `close`, the `frame` field and all drawing calls. They draw only.
- The `action_space` and `observation_space` declarations are library metadata.
  Only their ranges appear, as `Properties.ObservationBounds`.
- Random draws (`random.randint`, `random.random`) are parameters; no RNG is modelled.
  The range predicates `ValidDraws` and `ValidResetDraws` state what the draws promise.
- Trigonometry and floating point: the bullet velocity is an input pair of exact
  reals rather than `(-sin a * 20, -cos a * 20)`. Bullet coordinates are exact
  reals, so float rounding is not modelled. `dist < r` is `0 < r && dx*dx + dy*dy < r*r`,
  which is exact for a square root.
- Python's `list.remove` and `in` compare dicts by value. The model removes by position.
  Equal-valued duplicates would need two objects at the same place with the same shape.
- Fields that no logic reads: `game_over`, `player_radius`, `bullet_speed`
  (read only through the velocity, which is an input), the `seed` and `options` arguments and the `info` dict.
- `player_x`/`player_y`, `width`/`height` and `enemy_speed` are read by `step`, but `reset` always sets
  them to the same values. They are the constants `Entities.PlayerX`/`PlayerY`, `Width`/`Height` and `FallSpeed`.
- An invalid action raises no error in the code: it is ignored, as in `Engine.Act`.
- A step before reset fails in the code with an `AttributeError`, since the constructor creates
  none of the fields `step` reads. The model has no state until `Reset`, so that failure is not modelled.
- The training and inference drivers (`rlmodel.py`, `modelcehck.py`). They are
  file I/O, model loading and window handling over third-party libraries.
- `Engine.MoveBullets`: its contract gives only the bound on the count and that survivors lie
  in the playfield; which bullets survive (the moved ones that pass the bounds test) is
  `Properties.BulletCulling`, and their order is `Properties.BulletCullingOrder`.
- `Engine.Drop`: its contract gives only the bound on the count and that survivors lie above the
  bottom edge; which objects survive (the fallen ones still above the bottom) is `Properties.DropSurvivors`.
- `Collision.CollideBullets`: states two consequences of bullet survival rather
  than the exact rule; the exact rule is `Collision.CollideBulletsExact`.
- `World.Observe`: its contract gives only the length, the angle slot and the
  empty-list sentinel; the full decoding is `Properties.ObservationRoundTrip`.
