/** Properties of the environment that relate several phases, several ticks,
    or an operation to its partner: the invariant every reachable state keeps,
    the episode clock, the spawn cadence, the culling and escape rules, the
    score bookkeeping and the observation's schema.
 */
module Properties {
  import opened Seqs
  import opened Entities
  import opened World
  import opened Collision
  import opened Engine
  import opened Rewards

  // ---------------------------------------------------------------- the gun

  /** Turning the gun one way and then the other returns it to where it was,
      unless the first turn hit the clamp. */
  lemma RotateRoundTrip(s: State, dx: real, dy: real)
    ensures -MaxAngle <= s.gunAngle <= MaxAngle - RotateStep ==> Act(Act(s, 0, dx, dy), 1, dx, dy) == s
    ensures -MaxAngle + RotateStep <= s.gunAngle <= MaxAngle ==> Act(Act(s, 1, dx, dy), 0, dx, dy) == s
  {
  }

  // ---------------------------------------------------------- bullet motion

  /** After motion every bullet lies in the playfield; the survivors are
      exactly the moved bullets that passed the bounds test, and as many
      bullets were removed as failed it. */
  lemma BulletCulling(bs: seq<Bullet>)
    ensures forall b | b in MoveBullets(bs) :: InBox(b)
    ensures forall b :: b in MoveBullets(bs) <==> !OutOfBounds(b) && exists i | 0 <= i < |bs| :: b == Advance(bs[i])
    ensures |bs| - |MoveBullets(bs)| == Count(OutOfBounds, MapSeq(Advance, bs))
  {
    forall b ensures b in MoveBullets(bs) <==> !OutOfBounds(b) && exists i | 0 <= i < |bs| :: b == Advance(bs[i]) {
      FilterMapMembers(Not(OutOfBounds), Advance, bs, b);
    }
    FilterCount(OutOfBounds, MapSeq(Advance, bs));
  }

  /** Culling keeps the survivors' relative order: the survivors of two lists
      laid end to end are the survivors of each, in the same order. */
  lemma BulletCullingOrder(a: seq<Bullet>, b: seq<Bullet>)
    ensures MoveBullets(a + b) == MoveBullets(a) + MoveBullets(b)
  {
    MapAppend(Advance, a, b);
    FilterAppend(Not(OutOfBounds), MapSeq(Advance, a), MapSeq(Advance, b));
  }

  // ---------------------------------------------------------- enemies and friends falling

  /** After the fall no enemy or friend is below the bottom edge; the
      survivors are exactly the fallen objects still above it. */
  lemma DropSurvivors(ts: seq<Target>)
    ensures forall t | t in Drop(ts) :: t.y <= Height
    ensures forall t :: t in Drop(ts) <==> !PastBottom(t) && exists i | 0 <= i < |ts| :: t == Fall(ts[i])
  {
    forall t ensures t in Drop(ts) <==> !PastBottom(t) && exists i | 0 <= i < |ts| :: t == Fall(ts[i]) {
      FilterMapMembers(Not(PastBottom), Fall, ts, t);
    }
  }

  /** Each escaped enemy costs five points and counts once in `enemyUk`;
      friends passing the bottom change neither: whatever the friends, the
      score and the counter come out the same. */
  lemma EscapeBookkeeping(s: State, friends: seq<Target>)
    ensures MoveTargets(s).enemyUk == s.enemyUk + Count(PastBottom, MapSeq(Fall, s.enemies))
    ensures MoveTargets(s).score == s.score - EscapePenalty * (|s.enemies| - |MoveTargets(s).enemies|)
    ensures MoveTargets(s.(friends := friends)).score == MoveTargets(s).score
    ensures MoveTargets(s.(friends := friends)).enemyUk == MoveTargets(s).enemyUk
  {
  }

  // ---------------------------------------------------------- collisions

  /** One bullet touching an enemy and a friend at once destroys both: the
      bullet goes on checking friends after the enemy removed it. */
  lemma OneBulletTwoKills()
    ensures var b := Bullet(100.0, 100.0, 0.0, -20.0);
            Collide([b], Field([Target(100, 100, EnemyRadius)], [Target(100, 110, FriendRadius)], 0, 0))
            == Melee([], Field([], [], HitScore, FriendHitReward))
  {
    var b := Bullet(100.0, 100.0, 0.0, -20.0);
    var e := Target(100, 100, EnemyRadius);
    var f := Target(100, 110, FriendRadius);
    assert Touches(b, e) && Touches(b, f);
    assert Count(Hits(b), [e]) == 1;
    assert Count(Hits(b), [f]) == 1;
    assert Filter(Misses(b), [e]) == [];
    assert Filter(Misses(b), [f]) == [];
  }

  /** A second bullet inside the same enemy survives: the enemy is gone by
      the time that bullet is checked. */
  lemma LaterBulletSpared()
    ensures var b1 := Bullet(100.0, 100.0, 0.0, -20.0);
            var b2 := Bullet(105.0, 100.0, 0.0, -20.0);
            Collide([b1, b2], Field([Target(100, 100, EnemyRadius)], [], 0, 0))
            == Melee([b2], Field([], [], HitScore, EnemyHitReward))
  {
    var b1 := Bullet(100.0, 100.0, 0.0, -20.0);
    var b2 := Bullet(105.0, 100.0, 0.0, -20.0);
    var e := Target(100, 100, EnemyRadius);
    var after := Field([], [], HitScore, EnemyHitReward);
    assert Touches(b1, e);
    assert Count(Hits(b1), [e]) == 1;
    assert Filter(Misses(b1), [e]) == [];
    assert Count(Hits(b1), []) == 0;
    assert Filter(Misses(b1), []) == [];
    assert Shot(b1, Field([e], [], 0, 0)) == after;
    assert Count(Hits(b2), []) == 0;
    assert Filter(Misses(b2), []) == [];
    assert Shot(b2, after) == after;
    assert Collide([b2], after) == Melee([b2], after);
    assert [b1, b2][1..] == [b2];
  }

  /** After a tick the enemies (and the friends) are exactly those that were
      on the list or spawned, fell, stayed above the bottom edge, and are
      touched by no bullet that survived motion, in their original order. */
  lemma StepSurvivors(s: State, action: int, d: Draws)
    ensures var a := Armed(s, action, d);
            var r := Step(s, action, d).state;
            && r.enemies == Filter(Unhit(MoveBullets(a.bullets)), Drop(a.enemies))
            && r.friends == Filter(Unhit(MoveBullets(a.bullets)), Drop(a.friends))
  {
    var mv := Moved(s, action, d);
    CollideSurvivors(mv.bullets, Field(mv.enemies, mv.friends, mv.score, mv.reward));
    assert Step(s, action, d).state == Settle(CollidePhase(mv));
  }

  // ---------------------------------------------------------- the invariant

  /** Phases 1 and 2 keep everything placed when the spawn draw is in range. */
  lemma ArmedPlaced(s: State, action: int, d: Draws)
    requires Placed(s) && ValidDraws(d)
    ensures Placed(Armed(s, action, d))
  {
    var a := Act(s, action, d.bulletDx, d.bulletDy);
    assert InBox(Muzzle(d.bulletDx, d.bulletDy));
    assert Placed(a);
    var sp := Spawn(a, d.spawnX, d.spawnRoll);
    forall t | t in sp.enemies ensures TargetOk(t, EnemyRadius) {
      var k :| 0 <= k < |sp.enemies| && sp.enemies[k] == t;
      if k < |a.enemies| {
        assert sp.enemies[..|a.enemies|][k] == t;
      }
    }
    forall t | t in sp.friends ensures TargetOk(t, FriendRadius) {
      var k :| 0 <= k < |sp.friends| && sp.friends[k] == t;
      if k < |a.friends| {
        assert sp.friends[..|a.friends|][k] == t;
      }
    }
  }

  /** Falling keeps an object placed while it stays above the bottom edge. */
  lemma DropPlaced(ts: seq<Target>, radius: int)
    requires forall t | t in ts :: TargetOk(t, radius)
    ensures forall t | t in Drop(ts) :: TargetOk(t, radius)
  {
    forall t | t in Drop(ts) ensures TargetOk(t, radius) {
      DropSurvivors(ts);
      var i :| 0 <= i < |ts| && t == Fall(ts[i]);
      assert ts[i] in ts;
    }
  }

  /** Phases 1 to 4 keep everything placed. */
  lemma MovedPlaced(s: State, action: int, d: Draws)
    requires Placed(s) && ValidDraws(d)
    ensures Placed(Moved(s, action, d))
  {
    var a := Armed(s, action, d);
    ArmedPlaced(s, action, d);
    BulletCulling(a.bullets);
    DropPlaced(a.enemies, EnemyRadius);
    DropPlaced(a.friends, FriendRadius);
  }

  /** The collision phase only removes, so it keeps everything placed. */
  lemma CollidePlaced(m: State)
    requires Placed(m)
    ensures Placed(CollidePhase(m))
  {
  }

  /** Every tick keeps the invariant, given draws from the game's ranges. */
  lemma StepKeepsValid(s: State, action: int, d: Draws)
    requires Valid(s) && ValidDraws(d)
    ensures Valid(Step(s, action, d).state)
  {
    var mv := Moved(s, action, d);
    MovedPlaced(s, action, d);
    var c := CollidePhase(mv);
    CollidePlaced(mv);
    var r := Settle(c);
    assert Step(s, action, d).state == r;
    assert Placed(r);
    StepFlags(s, action, d);
  }

  /** Whether the spawn draws of each input are in the game's ranges. */
  predicate DrawsOk(ins: seq<Input>) {
    forall i | 0 <= i < |ins| :: ValidDraws(ins[i].draws)
  }

  /** A run of ticks keeps the invariant. */
  lemma {:induction false} RunKeepsValid(s: State, ins: seq<Input>)
    requires Valid(s) && DrawsOk(ins)
    ensures Valid(Run(s, ins))
    decreases |ins|
  {
    if ins != [] {
      StepKeepsValid(s, ins[0].action, ins[0].draws);
      assert DrawsOk(ins[1..]) by {
        forall i | 0 <= i < |ins[1..]| ensures ValidDraws(ins[1..][i].draws) {
          assert ins[1..][i] == ins[i + 1];
        }
      }
      RunKeepsValid(Step(s, ins[0].action, ins[0].draws).state, ins[1..]);
    }
  }

  // ---------------------------------------------------------- the episode clock

  /** After `n` ticks from a reset the state is valid, both clocks read `n`, no
      friend has been counted as killed, and the episode is truncated exactly
      when `n` exceeds 5000: on the 5001st tick, not the 5000th. */
  lemma EpisodeClock(rd: ResetDraws, ins: seq<Input>)
    requires ValidResetDraws(rd) && DrawsOk(ins)
    ensures var s := Run(Reset(rd).state, ins);
            && Valid(s)
            && s.totalFrame == |ins| && s.spawnTimer == |ins|
            && s.friendsKilled == 0
            && (s.truncated <==> |ins| > MaxFramesTillDone)
  {
    RunKeepsValid(Reset(rd).state, ins);
  }

  /** On a valid state, a friend kill never ends the episode: it ends exactly
      when it had ended already or the escape count reaches 10. */
  lemma StepDone(s: State, action: int, d: Draws)
    requires Valid(s)
    ensures Step(s, action, d).done <==> s.done || Step(s, action, d).state.enemyUk >= MaxEnemyUk
  {
  }

  /** Once done, a run of ticks stays done and returns -150 on every tick. */
  lemma {:induction false} DoneIsFinal(s: State, ins: seq<Input>)
    requires s.done && ins != []
    ensures Run(s, ins).done && Run(s, ins).reward == EndReward
    decreases |ins|
  {
    var next := Step(s, ins[0].action, ins[0].draws).state;
    if |ins| > 1 {
      DoneIsFinal(next, ins[1..]);
    } else {
      assert ins[1..] == [];
    }
  }

  // ---------------------------------------------------------- spawning

  /** The spawn phase of the tick after `n` ticks from a reset adds exactly
      one object when `n + 1` is a multiple of 120, and none otherwise. */
  lemma SpawnCadence(rd: ResetDraws, ins: seq<Input>, action: int, d: Draws)
    requires ValidResetDraws(rd) && DrawsOk(ins)
    ensures var s := Run(Reset(rd).state, ins);
            var a := Armed(s, action, d);
            |a.enemies| + |a.friends| == |s.enemies| + |s.friends| + (if (|ins| + 1) % SpawnPeriod == 0 then 1 else 0)
  {
    var s := Run(Reset(rd).state, ins);
    EpisodeClock(rd, ins);
    var acted := Act(s, action, d.bulletDx, d.bulletDy);
    assert acted.enemies == s.enemies && acted.friends == s.friends && acted.spawnTimer == |ins|;
    var a := Spawn(acted, d.spawnX, d.spawnRoll);
    assert a == Armed(s, action, d);
    assert a.spawnTimer == |ins| + 1;
  }

  // ---------------------------------------------------------- the score

  /** Every enemy that leaves the list during a tick, apart from those that
      spawned, either escaped (minus 5, counted in `enemyUk`) or was shot
      (plus 10); nothing else moves the score. */
  lemma StepScore(s: State, action: int, d: Draws)
    ensures var a := Armed(s, action, d);
            var r := Step(s, action, d).state;
            var escaped := r.enemyUk - s.enemyUk;
            var shot := |a.enemies| - escaped - |r.enemies|;
            && escaped >= 0 && shot >= 0
            && r.score == s.score + HitScore * shot - EscapePenalty * escaped
  {
    var a := Armed(s, action, d);
    var mv := Moved(s, action, d);
    assert a.score == s.score && a.enemyUk == s.enemyUk;
    assert |mv.enemies| == |a.enemies| - (mv.enemyUk - s.enemyUk);
    assert Step(s, action, d).state == Settle(CollidePhase(mv));
  }

  // ---------------------------------------------------------- the observation

  /** On a valid state the observation decodes back to the gun angle and the
      first friend and first enemy, or their absence. */
  lemma ObservationRoundTrip(s: State)
    requires Valid(s)
    ensures var obs := Observe(s);
            && obs[0] == s.gunAngle
            && DecodeSighting(obs[1], obs[2]) == Sight(s.friends)
            && DecodeSighting(obs[3], obs[4]) == Sight(s.enemies)
  {
    if s.friends != [] {
      assert s.friends[0] in s.friends;
    }
    if s.enemies != [] {
      assert s.enemies[0] in s.enemies;
    }
  }

  /** On a valid state every observation slot lies in the range the
      observation space declares. */
  lemma ObservationBounds(s: State)
    requires Valid(s)
    ensures var obs := Observe(s);
            && -MaxAngle <= obs[0] <= MaxAngle
            && -1 <= obs[1] <= Width && -1 <= obs[2] <= Height
            && -1 <= obs[3] <= Width && -1 <= obs[4] <= Height
  {
    if s.friends != [] {
      assert s.friends[0] in s.friends;
    }
    if s.enemies != [] {
      assert s.enemies[0] in s.enemies;
    }
  }
}
