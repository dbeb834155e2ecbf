/** The fixed constants of the shooter environment and the objects that live
    on its playfield: bullets, and the falling circles (enemies and friends).
 */
module Entities {
  import opened Seqs

  // Playfield size and episode limits.
  const Width: int := 600
  const Height: int := 800
  const MaxEnemyUk: int := 10
  const MaxFramesTillDone: int := 5000
  const MaxFriendKillCount: int := 2

  // The player sits at a fixed point near the bottom edge; bullets leave from there.
  const PlayerX: int := Width / 2
  const PlayerY: int := Height - 50

  // Gun rotation: degrees, clamped to [-MaxAngle, MaxAngle].
  const MaxAngle: int := 90
  const RotateStep: int := 5

  // Falling objects: spawn cadence, spawn line, horizontal spawn range, radii, speed.
  const SpawnPeriod: int := 120
  const SpawnY: int := 30
  const SpawnMinX: int := 30
  const SpawnMaxX: int := Width - 30
  const EnemyRadius: int := 20
  const FriendRadius: int := 15
  const EnemyChance: real := 0.7
  const FallSpeed: int := 2

  // Score changes.
  const EscapePenalty: int := 5
  const HitScore: int := 10

  // Values written into the reward register.
  const FireReward: int := -2
  const EscapeReward: int := -40
  const PassReward: int := 20
  const EnemyHitReward: int := 160
  const FriendHitReward: int := -100
  const EndReward: int := -150

  /** A bullet: its position and its per-tick velocity. */
  datatype Bullet = Bullet(x: real, y: real, dx: real, dy: real)

  /** A falling circle; enemies and friends have the same shape and differ in radius. */
  datatype Target = Target(x: int, y: int, radius: int)

  /** A bullet freshly fired from the player's position. */
  function Muzzle(dx: real, dy: real): Bullet {
    Bullet(PlayerX as real, PlayerY as real, dx, dy)
  }

  /** One tick of bullet motion. */
  function Advance(b: Bullet): Bullet {
    b.(x := b.x + b.dx, y := b.y + b.dy)
  }

  /** The removal test applied to a bullet after it moved. */
  predicate OutOfBounds(b: Bullet) {
    b.y < 0.0 || b.y > Height as real || b.x < 0.0 || b.x > Width as real
  }

  /** The closed playfield rectangle [0, Width] x [0, Height]. */
  predicate InBox(b: Bullet) {
    0.0 <= b.x <= Width as real && 0.0 <= b.y <= Height as real
  }

  /** One tick of downward motion of an enemy or a friend. */
  function Fall(t: Target): Target {
    t.(y := t.y + FallSpeed)
  }

  /** The removal test applied to an enemy or a friend after it moved. */
  predicate PastBottom(t: Target) {
    t.y > Height
  }

  /** The bullet's centre lies strictly inside the circle: `sqrt(d2) < radius`,
      which for a square root is `0 < radius && d2 < radius * radius`. */
  predicate Touches(b: Bullet, t: Target) {
    var ex := b.x - t.x as real;
    var ey := b.y - t.y as real;
    0 < t.radius && ex * ex + ey * ey < (t.radius * t.radius) as real
  }

  function Hits(b: Bullet): Target -> bool {
    t => Touches(b, t)
  }

  function Misses(b: Bullet): Target -> bool {
    Not(Hits(b))
  }

  /** Some bullet of `bs` touches `t`. */
  predicate HitByAny(bs: seq<Bullet>, t: Target) {
    exists i | 0 <= i < |bs| :: Touches(bs[i], t)
  }

  function Unhit(bs: seq<Bullet>): Target -> bool {
    t => !HitByAny(bs, t)
  }

  /** A bullet that leaves the box is exactly one that fails the removal test. */
  lemma OutOfBoundsIsOutsideBox(b: Bullet)
    ensures OutOfBounds(b) <==> !InBox(b)
  {
  }

  /** Being hit by some bullet of a non-empty list splits into the first and the rest. */
  lemma HitByAnyCons(bs: seq<Bullet>, t: Target)
    requires bs != []
    ensures HitByAny(bs, t) <==> Touches(bs[0], t) || HitByAny(bs[1..], t)
  {
    if HitByAny(bs, t) && !Touches(bs[0], t) {
      var i :| 0 <= i < |bs| && Touches(bs[i], t);
      assert bs[1..][i - 1] == bs[i];
    }
    if HitByAny(bs[1..], t) {
      var i :| 0 <= i < |bs[1..]| && Touches(bs[1..][i], t);
      assert bs[i + 1] == bs[1..][i];
    }
  }

  /** Being hit by one of the first `i + 1` bullets splits into the first `i` and bullet `i`. */
  lemma HitByAnySnoc(bs: seq<Bullet>, i: int, t: Target)
    requires 0 <= i < |bs|
    ensures HitByAny(bs[..i + 1], t) <==> HitByAny(bs[..i], t) || Touches(bs[i], t)
  {
    if HitByAny(bs[..i + 1], t) {
      var j :| 0 <= j < i + 1 && Touches(bs[..i + 1][j], t);
      assert bs[..i + 1][j] == bs[j];
      if j < i {
        assert bs[..i][j] == bs[j];
      }
    }
    if HitByAny(bs[..i], t) {
      var j :| 0 <= j < i && Touches(bs[..i][j], t);
      assert bs[..i + 1][j] == bs[..i][j];
    }
    if Touches(bs[i], t) {
      assert bs[..i + 1][i] == bs[i];
    }
  }
}
