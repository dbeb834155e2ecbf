/** The reward register. A tick does not add rewards up: each rule that fires
    overwrites a single register, which keeps its value from the previous tick
    when nothing fires. This module names the rules as events, lists the events
    of a tick in the order they fire, and relates the register the tick leaves
    behind to that list.
 */
module Rewards {
  import opened Seqs
  import opened Entities
  import opened World
  import opened Collision
  import opened Engine

  /** The rules that write the reward register, named by their cause. */
  datatype Event = Fired | Escaped | Passed | EnemyHit | FriendHit

  function RewardOf(e: Event): int {
    match e
    case Fired => FireReward
    case Escaped => EscapeReward
    case Passed => PassReward
    case EnemyHit => EnemyHitReward
    case FriendHit => FriendHitReward
  }

  /** The register after `events` write it one after the other, starting from `prev`. */
  function Overwrite(prev: int, events: seq<Event>): int
    decreases |events|
  {
    if events == [] then prev else Overwrite(RewardOf(events[0]), events[1..])
  }

  /** Overwriting keeps only the last write: the register holds the reward of
      the last event, or its old value when there was none. */
  lemma {:induction false} LastWriteWins(prev: int, events: seq<Event>)
    ensures events == [] ==> Overwrite(prev, events) == prev
    ensures events != [] ==> Overwrite(prev, events) == RewardOf(events[|events| - 1])
    decreases |events|
  {
    if events != [] {
      LastWriteWins(RewardOf(events[0]), events[1..]);
      if |events| > 1 {
        assert events[1..][|events[1..]| - 1] == events[|events| - 1];
      }
    }
  }

  /** Writing two batches of events is writing their concatenation. */
  lemma {:induction false} OverwriteAppend(prev: int, a: seq<Event>, b: seq<Event>)
    ensures Overwrite(prev, a + b) == Overwrite(Overwrite(prev, a), b)
    decreases |a|
  {
    if a == [] {
      assert a + b == b;
    } else {
      assert (a + b)[1..] == a[1..] + b;
      OverwriteAppend(RewardOf(a[0]), a[1..], b);
    }
  }

  /** The hit events of the collision phase, bullet by bullet: a bullet that
      touches a live enemy writes an enemy hit, then one that touches a live
      friend writes a friend hit. */
  function CollisionEvents(bs: seq<Bullet>, es: seq<Target>, fs: seq<Target>): seq<Event>
    decreases |bs|
  {
    if bs == [] then []
    else
      var b := bs[0];
      (if HitsSome(b, es) then [EnemyHit] else [])
      + (if HitsSome(b, fs) then [FriendHit] else [])
      + CollisionEvents(bs[1..], Filter(Misses(b), es), Filter(Misses(b), fs))
  }

  /** The collision phase leaves in the register what its hit events write. */
  lemma {:induction false} CollideReward(bs: seq<Bullet>, f: Field)
    ensures Collide(bs, f).field.reward == Overwrite(f.reward, CollisionEvents(bs, f.enemies, f.friends))
    decreases |bs|
  {
    if bs != [] {
      var b := bs[0];
      var g := Shot(b, f);
      var head := (if HitsSome(b, f.enemies) then [EnemyHit] else []) + (if HitsSome(b, f.friends) then [FriendHit] else []);
      var tail := CollisionEvents(bs[1..], g.enemies, g.friends);
      assert g.reward == Overwrite(f.reward, head) by {
        CountHits(b, f.enemies);
        CountHits(b, f.friends);
        LastWriteWins(f.reward, head);
      }
      CollideReward(bs[1..], g);
      OverwriteAppend(f.reward, head, tail);
      assert CollisionEvents(bs, f.enemies, f.friends) == head + tail;
    }
  }

  /** Some object of the list passes the bottom edge when it falls. */
  predicate SomePastBottom(ts: seq<Target>) {
    exists i | 0 <= i < |ts| :: PastBottom(Fall(ts[i]))
  }

  /** The events of the motion phase: an enemy escaping, then a friend
      passing the bottom edge. */
  function MotionEvents(a: State): seq<Event> {
    (if SomePastBottom(a.enemies) then [Escaped] else [])
    + (if SomePastBottom(a.friends) then [Passed] else [])
  }

  /** The events of one tick in the order `ShooterEnv.step` fires them: the shot,
      the motion events, then the collision events. */
  function StepEvents(s: State, action: int, d: Draws): seq<Event> {
    var a := Armed(s, action, d);
    (if action == 2 then [Fired] else [])
    + MotionEvents(a)
    + CollisionEvents(MoveBullets(a.bullets), Drop(a.enemies), Drop(a.friends))
  }

  /** The escape and pass rules of the motion phase write the register as
      their events say. */
  lemma MoveTargetsReward(a: State)
    ensures MoveTargets(a).reward == Overwrite(a.reward, MotionEvents(a))
  {
    CountZero(PastBottom, MapSeq(Fall, a.enemies));
    CountZero(PastBottom, MapSeq(Fall, a.friends));
    LastWriteWins(a.reward, MotionEvents(a));
  }

  /** The action phase writes the register as its event says. */
  lemma ArmedReward(s: State, action: int, d: Draws)
    ensures Armed(s, action, d).reward == Overwrite(s.reward, if action == 2 then [Fired] else [])
  {
    if action == 2 {
      LastWriteWins(s.reward, [Fired]);
    }
  }

  /** The reward `step` returns: -150 when the tick ends or truncates the
      episode, otherwise the value of the last rule that fired this tick,
      otherwise the previous tick's reward. */
  lemma StepReward(s: State, action: int, d: Draws)
    ensures var r := Step(s, action, d);
            r.reward == if r.done || r.truncated then EndReward else Overwrite(s.reward, StepEvents(s, action, d))
  {
    var a := Armed(s, action, d);
    var fire := if action == 2 then [Fired] else [];
    var moves := MotionEvents(a);
    var hits := CollisionEvents(MoveBullets(a.bullets), Drop(a.enemies), Drop(a.friends));
    ArmedReward(s, action, d);
    var m := a.(bullets := MoveBullets(a.bullets));
    MoveTargetsReward(m);
    var mv := MoveTargets(m);
    assert mv == Moved(s, action, d);
    assert mv.bullets == MoveBullets(a.bullets) && mv.enemies == Drop(a.enemies) && mv.friends == Drop(a.friends);
    assert mv.reward == Overwrite(Overwrite(s.reward, fire), moves);
    CollideReward(mv.bullets, Field(mv.enemies, mv.friends, mv.score, mv.reward));
    var c := CollidePhase(mv);
    assert c.reward == Overwrite(mv.reward, hits);
    OverwriteAppend(s.reward, fire, moves);
    OverwriteAppend(s.reward, fire + moves, hits);
    assert StepEvents(s, action, d) == fire + moves + hits;
    assert c.reward == Overwrite(s.reward, StepEvents(s, action, d));
    assert Step(s, action, d).state == Settle(c);
  }

  /** A tick in which no rule fires and the episode goes on returns the
      previous tick's reward. */
  lemma QuietTickKeepsReward(s: State, action: int, d: Draws)
    requires StepEvents(s, action, d) == []
    requires !Step(s, action, d).done && !Step(s, action, d).truncated
    ensures Step(s, action, d).reward == s.reward
  {
    StepReward(s, action, d);
  }
}
