/** The environment's state record, its observation vector, `reset`, and the
    invariant that every reachable state keeps.
 */
module World {
  import opened Seqs
  import opened Entities

  /** Everything `step` reads or writes. Lists are insertion-ordered. */
  datatype State = State(
    gunAngle: int,
    bullets: seq<Bullet>,
    enemies: seq<Target>,
    friends: seq<Target>,
    score: int,
    enemyUk: int,         // enemies that escaped past the bottom edge
    friendsKilled: int,
    totalFrame: int,
    spawnTimer: int,
    reward: int,          // the reward register; never cleared between ticks
    done: bool,
    truncated: bool)

  /** What the observation says about one list: its first element, or nothing. */
  datatype Sighting = Absent | Seen(x: int, y: int)

  /** The observation's view of a list: its oldest surviving element. */
  function Sight(ts: seq<Target>): (v: Sighting)
    ensures v.Absent? <==> ts == []
    ensures v.Seen? ==> v == Seen(ts[0].x, ts[0].y)
  {
    if ts == [] then Absent else Seen(ts[0].x, ts[0].y)
  }

  /** Two observation slots; -1, -1 stands in for an empty list. */
  function EncodeSighting(v: Sighting): seq<int> {
    match v
    case Absent => [-1, -1]
    case Seen(x, y) => [x, y]
  }

  /** Reads a pair of observation slots back. */
  function DecodeSighting(x: int, y: int): Sighting {
    if x == -1 && y == -1 then Absent else Seen(x, y)
  }

  /** The five-element observation `[angle, friend0.x, friend0.y, enemy0.x, enemy0.y]`. */
  function Observe(s: State): (obs: seq<int>)
    ensures |obs| == 5
    ensures obs[0] == s.gunAngle
    ensures DecodeSighting(obs[1], obs[2]) == Absent <== s.friends == []
    ensures DecodeSighting(obs[3], obs[4]) == Absent <== s.enemies == []
  {
    [s.gunAngle] + EncodeSighting(Sight(s.friends)) + EncodeSighting(Sight(s.enemies))
  }

  /** The random draws `reset` makes: the gun angle's magnitude in [0, 90], a
      roll in [0, 1) whose value above 0.5 makes the angle negative, and the
      horizontal positions of the first enemy and the first friend. */
  datatype ResetDraws = ResetDraws(magnitude: int, signRoll: real, enemyX: int, friendX: int)

  predicate SpawnXOk(x: int) {
    SpawnMinX <= x <= SpawnMaxX
  }

  predicate ValidResetDraws(d: ResetDraws) {
    0 <= d.magnitude <= MaxAngle && 0.0 <= d.signRoll < 1.0 && SpawnXOk(d.enemyX) && SpawnXOk(d.friendX)
  }

  datatype ResetResult = ResetResult(state: State, obs: seq<int>)

  /** A fresh episode: one enemy and one friend on the spawn line, no bullets,
      every counter and flag cleared. */
  function Reset(d: ResetDraws): (r: ResetResult)
    ensures r.state.bullets == []
    ensures r.state.enemies == [Target(d.enemyX, SpawnY, EnemyRadius)]
    ensures r.state.friends == [Target(d.friendX, SpawnY, FriendRadius)]
    ensures r.state.score == 0 && r.state.enemyUk == 0 && r.state.friendsKilled == 0
    ensures r.state.totalFrame == 0 && r.state.spawnTimer == 0 && r.state.reward == 0
    ensures !r.state.done && !r.state.truncated
    ensures r.state.gunAngle == (if d.signRoll > 0.5 then -d.magnitude else d.magnitude)
    ensures ValidResetDraws(d) ==> Valid(r.state)
    ensures r.obs == [r.state.gunAngle, d.friendX, SpawnY, d.enemyX, SpawnY]
  {
    var angle := if d.signRoll > 0.5 then -d.magnitude else d.magnitude;
    var s := State(
      gunAngle := angle,
      bullets := [],
      enemies := [Target(d.enemyX, SpawnY, EnemyRadius)],
      friends := [Target(d.friendX, SpawnY, FriendRadius)],
      score := 0,
      enemyUk := 0,
      friendsKilled := 0,
      totalFrame := 0,
      spawnTimer := 0,
      reward := 0,
      done := false,
      truncated := false);
    ResetResult(s, Observe(s))
  }

  /** An enemy or friend of the given radius where the game can have put it:
      spawned inside the horizontal range, somewhere between the spawn line
      and the bottom edge. */
  predicate TargetOk(t: Target, radius: int) {
    t.radius == radius && SpawnXOk(t.x) && SpawnY <= t.y <= Height
  }

  /** The gun and every object are where the game can have put them. */
  predicate Placed(s: State) {
    && -MaxAngle <= s.gunAngle <= MaxAngle
    && (forall b | b in s.bullets :: InBox(b))
    && (forall t | t in s.enemies :: TargetOk(t, EnemyRadius))
    && (forall t | t in s.friends :: TargetOk(t, FriendRadius))
  }

  /** The invariant of every state reachable from `reset`: everything is
      placed, no friend was ever counted as killed, the two clocks agree,
      and the flags and the reward register agree with the counters. */
  predicate Valid(s: State) {
    && Placed(s)
    && s.friendsKilled == 0
    && 0 <= s.enemyUk
    && 0 <= s.totalFrame
    && s.spawnTimer == s.totalFrame
    && (s.enemyUk >= MaxEnemyUk ==> s.done)
    && (s.truncated <==> s.totalFrame > MaxFramesTillDone)
    && (s.done || s.truncated ==> s.reward == EndReward)
  }
}
