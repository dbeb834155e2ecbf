/** One tick of the environment, phase by phase in the order `ShooterEnv.step` runs
    them, and a run of several ticks.
 */
module Engine {
  import opened Seqs
  import opened Entities
  import opened World
  import opened Collision

  /** The random draws and the bullet velocity one tick consumes: the velocity a
      fired bullet gets, the horizontal position of a spawned object, and the
      roll in [0, 1) that makes it an enemy when below 0.7. */
  datatype Draws = Draws(bulletDx: real, bulletDy: real, spawnX: int, spawnRoll: real)

  predicate ValidDraws(d: Draws) {
    SpawnXOk(d.spawnX) && 0.0 <= d.spawnRoll < 1.0
  }

  /** Phase 1, the action: 0 turns the gun left, 1 turns it right, 2 fires;
      any other value has no effect. */
  function Act(s: State, action: int, dx: real, dy: real): (r: State)
    ensures -MaxAngle <= s.gunAngle <= MaxAngle ==> -MaxAngle <= r.gunAngle <= MaxAngle
    ensures action == 0 ==>
              && r.gunAngle <= MaxAngle && r.gunAngle <= s.gunAngle + RotateStep
              && (r.gunAngle == MaxAngle || r.gunAngle == s.gunAngle + RotateStep)
    ensures action == 1 ==>
              && r.gunAngle >= -MaxAngle && r.gunAngle >= s.gunAngle - RotateStep
              && (r.gunAngle == -MaxAngle || r.gunAngle == s.gunAngle - RotateStep)
    ensures action == 0 || action == 1 ==> r == s.(gunAngle := r.gunAngle)
    ensures action == 2 ==> r == s.(bullets := s.bullets + [Muzzle(dx, dy)], reward := FireReward)
    ensures action !in {0, 1, 2} ==> r == s
  {
    if action == 0 then
      s.(gunAngle := if s.gunAngle + RotateStep < MaxAngle then s.gunAngle + RotateStep else MaxAngle)
    else if action == 1 then
      s.(gunAngle := if s.gunAngle - RotateStep > -MaxAngle then s.gunAngle - RotateStep else -MaxAngle)
    else if action == 2 then
      s.(bullets := s.bullets + [Muzzle(dx, dy)], reward := FireReward)
    else
      s
  }

  /** The spawn timer after its increment is due for a spawn. */
  predicate SpawnDue(timer: int) {
    timer % SpawnPeriod == 0
  }

  /** Phase 2: tick the spawn timer; on every 120th tick append one enemy
      (roll below 0.7) or one friend at the spawn line. */
  function Spawn(s: State, x: int, roll: real): (r: State)
    ensures r.spawnTimer == s.spawnTimer + 1
    ensures r == s.(spawnTimer := r.spawnTimer, enemies := r.enemies, friends := r.friends)
    ensures |r.enemies| + |r.friends| == |s.enemies| + |s.friends| + (if SpawnDue(r.spawnTimer) then 1 else 0)
    ensures |r.enemies| >= |s.enemies| && |r.friends| >= |s.friends|
    ensures r.enemies[..|s.enemies|] == s.enemies && r.friends[..|s.friends|] == s.friends
    ensures |r.enemies| > |s.enemies| ==> r.enemies[|s.enemies|] == Target(x, SpawnY, EnemyRadius) && roll < EnemyChance
    ensures |r.friends| > |s.friends| ==> r.friends[|s.friends|] == Target(x, SpawnY, FriendRadius) && roll >= EnemyChance
  {
    var timer := s.spawnTimer + 1;
    if SpawnDue(timer) then
      if roll < EnemyChance then
        s.(spawnTimer := timer, enemies := s.enemies + [Target(x, SpawnY, EnemyRadius)])
      else
        s.(spawnTimer := timer, friends := s.friends + [Target(x, SpawnY, FriendRadius)])
    else
      s.(spawnTimer := timer)
  }

  /** Phase 3: every bullet moves by its velocity; those that left the playfield go. */
  function MoveBullets(bs: seq<Bullet>): (r: seq<Bullet>)
    ensures |r| <= |bs|
    ensures forall b | b in r :: InBox(b)
  {
    Filter(Not(OutOfBounds), MapSeq(Advance, bs))
  }

  /** Phase 4 for one list: every object falls; those past the bottom edge go. */
  function Drop(ts: seq<Target>): (r: seq<Target>)
    ensures |r| <= |ts|
    ensures forall t | t in r :: t.y <= Height
  {
    Filter(Not(PastBottom), MapSeq(Fall, ts))
  }

  /** Phase 4: enemies and friends fall. Each escaped enemy raises `enemyUk`
      by one and costs 5 points; an escape writes -40 and a friend passing
      the bottom writes +20 into the reward register. */
  function MoveTargets(s: State): (r: State)
    ensures r == s.(enemies := r.enemies, friends := r.friends, enemyUk := r.enemyUk, score := r.score, reward := r.reward)
    ensures r.enemyUk - s.enemyUk == |s.enemies| - |r.enemies|
    ensures r.score == s.score - EscapePenalty * (r.enemyUk - s.enemyUk)
  {
    var fallenEnemies := MapSeq(Fall, s.enemies);
    var fallenFriends := MapSeq(Fall, s.friends);
    var escaped := Count(PastBottom, fallenEnemies);
    var passed := Count(PastBottom, fallenFriends);
    var afterEscapes := if escaped > 0 then EscapeReward else s.reward;
    FilterCount(PastBottom, fallenEnemies);
    s.(enemies := Drop(s.enemies),
       friends := Drop(s.friends),
       enemyUk := s.enemyUk + escaped,
       score := s.score - EscapePenalty * escaped,
       reward := if passed > 0 then PassReward else afterEscapes)
  }

  /** Phase 5: the collision fold over the bullets that survived motion. */
  function CollidePhase(s: State): (r: State)
    ensures r == s.(bullets := r.bullets, enemies := r.enemies, friends := r.friends, score := r.score, reward := r.reward)
    ensures r.enemies == Filter(Unhit(s.bullets), s.enemies)
    ensures r.friends == Filter(Unhit(s.bullets), s.friends)
    ensures r.score == s.score + HitScore * (|s.enemies| - |r.enemies|)
    ensures |r.bullets| <= |s.bullets| && forall b | b in r.bullets :: b in s.bullets
  {
    CollideSurvivors(s.bullets, Field(s.enemies, s.friends, s.score, s.reward));
    var m := Collide(s.bullets, Field(s.enemies, s.friends, s.score, s.reward));
    s.(bullets := m.bullets, enemies := m.field.enemies, friends := m.field.friends,
       score := m.field.score, reward := m.field.reward)
  }

  /** Phase 6: the terminal flags, both sticky, and the frame counter; an
      ending tick overwrites the reward register with -150. */
  function Settle(s: State): (r: State)
    ensures r == s.(done := r.done, truncated := r.truncated, totalFrame := r.totalFrame, reward := r.reward)
    ensures s.done ==> r.done
    ensures s.truncated ==> r.truncated
    ensures r.done || r.truncated ==> r.reward == EndReward
    ensures !r.done && !r.truncated ==> r.reward == s.reward
  {
    var done := s.done || s.enemyUk >= MaxEnemyUk || s.friendsKilled >= MaxFriendKillCount;
    var frames := s.totalFrame + 1;
    var truncated := s.truncated || frames > MaxFramesTillDone;
    s.(done := done, totalFrame := frames, truncated := truncated,
       reward := if done || truncated then EndReward else s.reward)
  }

  /** What `step` hands back: the new state, the observation, the reward and the two flags. */
  datatype StepResult = StepResult(state: State, obs: seq<int>, reward: int, done: bool, truncated: bool)

  /** The state after phases 1 and 2. */
  function Armed(s: State, action: int, d: Draws): State {
    Spawn(Act(s, action, d.bulletDx, d.bulletDy), d.spawnX, d.spawnRoll)
  }

  /** The state after phases 1 to 4. */
  function Moved(s: State, action: int, d: Draws): State {
    var a := Armed(s, action, d);
    MoveTargets(a.(bullets := MoveBullets(a.bullets)))
  }

  /** One tick: phases 1 to 7 in order. */
  function Step(s: State, action: int, d: Draws): (r: StepResult)
    ensures |r.obs| == 5 && r.obs[0] == r.state.gunAngle
    ensures r.reward == r.state.reward && r.done == r.state.done && r.truncated == r.state.truncated
    ensures s.done ==> r.done
    ensures s.truncated ==> r.truncated
    ensures r.state.friendsKilled == s.friendsKilled
    ensures r.done || r.truncated ==> r.reward == EndReward
  {
    var s6 := Settle(CollidePhase(Moved(s, action, d)));
    StepResult(s6, Observe(s6), s6.reward, s6.done, s6.truncated)
  }

  /** The clocks and the terminal flags after a tick: both clocks advance by
      one; the episode is done once it was done, or 10 enemies have escaped,
      or 2 friends were counted as killed; it is truncated once it was, or the
      frame count passes 5000. */
  lemma StepFlags(s: State, action: int, d: Draws)
    ensures var r := Step(s, action, d);
            && r.state.totalFrame == s.totalFrame + 1
            && r.state.spawnTimer == s.spawnTimer + 1
            && r.state.enemyUk >= s.enemyUk
            && (r.done <==> s.done || r.state.enemyUk >= MaxEnemyUk || s.friendsKilled >= MaxFriendKillCount)
            && (r.truncated <==> s.truncated || s.totalFrame + 1 > MaxFramesTillDone)
  {
    var mv := Moved(s, action, d);
    assert mv.totalFrame == s.totalFrame && mv.spawnTimer == s.spawnTimer + 1 && mv.enemyUk >= s.enemyUk;
    var c := CollidePhase(mv);
    assert Step(s, action, d).state == Settle(c);
  }

  /** One call to `step`: an action and the draws it consumes. */
  datatype Input = Input(action: int, draws: Draws)

  /** The state after feeding `ins` to `step` one after the other. */
  function Run(s: State, ins: seq<Input>): (r: State)
    ensures r.totalFrame == s.totalFrame + |ins|
    ensures r.friendsKilled == s.friendsKilled
    ensures s.done ==> r.done
    decreases |ins|
  {
    if ins == [] then s
    else
      StepFlags(s, ins[0].action, ins[0].draws);
      Run(Step(s, ins[0].action, ins[0].draws).state, ins[1..])
  }
}
