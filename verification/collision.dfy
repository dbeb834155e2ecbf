/** The collision phase of a tick: every bullet that survived motion is checked,
    in list order, against the enemies and then the friends still alive at its
    turn. A bullet that touches something is removed, but it goes on checking
    the remaining objects of that tick, so one bullet can destroy several.
 */
module Collision {
  import opened Seqs
  import opened Entities

  /** The part of the state a bullet is checked against: the live enemies and
      friends, the score and the reward register. */
  datatype Field = Field(enemies: seq<Target>, friends: seq<Target>, score: int, reward: int)

  /** What the collision phase leaves behind: the surviving bullets and the field. */
  datatype Melee = Melee(bullets: seq<Bullet>, field: Field)

  /** One bullet's turn: it destroys every live enemy it touches, at 10 points
      each, writing 160 into the register if there was one, then every live
      friend it touches, writing -100 if there was one. */
  function Shot(b: Bullet, f: Field): (r: Field)
    ensures r.score == f.score + HitScore * (|f.enemies| - |r.enemies|)
    ensures forall t | t in r.enemies :: t in f.enemies && !Touches(b, t)
    ensures forall t | t in r.friends :: t in f.friends && !Touches(b, t)
  {
    var enemyHits := Count(Hits(b), f.enemies);
    var afterEnemies := if enemyHits > 0 then EnemyHitReward else f.reward;
    FilterCount(Hits(b), f.enemies);
    Field(Filter(Misses(b), f.enemies),
          Filter(Misses(b), f.friends),
          f.score + HitScore * enemyHits,
          if Count(Hits(b), f.friends) > 0 then FriendHitReward else afterEnemies)
  }

  /** The bullet is removed on its turn: it touched a live enemy or friend. */
  predicate Struck(b: Bullet, f: Field) {
    Count(Hits(b), f.enemies) > 0 || Count(Hits(b), f.friends) > 0
  }

  /** Resolves the bullets `bs` one after the other against the field. */
  function Collide(bs: seq<Bullet>, f: Field): (r: Melee)
    ensures r.field.score == f.score + HitScore * (|f.enemies| - |r.field.enemies|)
    ensures |r.bullets| <= |bs| && |r.field.enemies| <= |f.enemies| && |r.field.friends| <= |f.friends|
    ensures forall b | b in r.bullets :: b in bs
    ensures forall t | t in r.field.enemies :: t in f.enemies
    ensures forall t | t in r.field.friends :: t in f.friends
    decreases |bs|
  {
    if bs == [] then Melee([], f)
    else
      var rest := Collide(bs[1..], Shot(bs[0], f));
      Melee((if Struck(bs[0], f) then [] else [bs[0]]) + rest.bullets, rest.field)
  }

  /** The bullet touches at least one object of `ts`. */
  predicate HitsSome(b: Bullet, ts: seq<Target>) {
    exists i | 0 <= i < |ts| :: Touches(b, ts[i])
  }

  /** The collision fold counts a hit exactly when the bullet touches something. */
  lemma CountHits(b: Bullet, ts: seq<Target>)
    ensures Count(Hits(b), ts) > 0 <==> HitsSome(b, ts)
  {
    CountZero(Hits(b), ts);
  }

  /** Filtering out what the first bullet hits and then what the rest hit is
      filtering out what any bullet hits. */
  lemma UnhitSplit(bs: seq<Bullet>, ts: seq<Target>)
    requires bs != []
    ensures Filter(Unhit(bs[1..]), Filter(Misses(bs[0]), ts)) == Filter(Unhit(bs), ts)
  {
    forall t ensures Unhit(bs)(t) == (Misses(bs[0])(t) && Unhit(bs[1..])(t)) {
      HitByAnyCons(bs, t);
    }
    FilterCompose(Misses(bs[0]), Unhit(bs[1..]), Unhit(bs), ts);
  }

  /** An object survives the collision phase exactly when no bullet that
      survived motion touches it; survivors keep their order. */
  lemma {:induction false} CollideSurvivors(bs: seq<Bullet>, f: Field)
    ensures Collide(bs, f).field.enemies == Filter(Unhit(bs), f.enemies)
    ensures Collide(bs, f).field.friends == Filter(Unhit(bs), f.friends)
    decreases |bs|
  {
    if bs == [] {
      FilterKeepsAll(Unhit(bs), f.enemies);
      FilterKeepsAll(Unhit(bs), f.friends);
    } else {
      CollideSurvivors(bs[1..], Shot(bs[0], f));
      UnhitSplit(bs, f.enemies);
      UnhitSplit(bs, f.friends);
    }
  }

  /** After the collision phase no surviving bullet touches a surviving object,
      and a bullet that touches nothing alive at the start of the phase survives. */
  lemma {:induction false} CollideBullets(bs: seq<Bullet>, f: Field)
    ensures forall b, t | b in Collide(bs, f).bullets && t in Collide(bs, f).field.enemies :: !Touches(b, t)
    ensures forall b, t | b in Collide(bs, f).bullets && t in Collide(bs, f).field.friends :: !Touches(b, t)
    ensures forall i | 0 <= i < |bs| && !HitsSome(bs[i], f.enemies) && !HitsSome(bs[i], f.friends) :: bs[i] in Collide(bs, f).bullets
    decreases |bs|
  {
    if bs != [] {
      var b := bs[0];
      var g := Shot(b, f);
      var rest := Collide(bs[1..], g);
      var r := Collide(bs, f);
      CollideBullets(bs[1..], g);
      assert r.bullets == (if Struck(b, f) then [] else [b]) + rest.bullets;
      assert r.field == rest.field;
      forall i | 0 <= i < |bs| && !HitsSome(bs[i], f.enemies) && !HitsSome(bs[i], f.friends) ensures bs[i] in r.bullets {
        if i == 0 {
          CountHits(b, f.enemies);
          CountHits(b, f.friends);
        } else {
          assert bs[1..][i - 1] == bs[i];
          forall k | 0 <= k < |g.enemies| ensures !Touches(bs[i], g.enemies[k]) {
            assert g.enemies[k] in f.enemies;
          }
          forall k | 0 <= k < |g.friends| ensures !Touches(bs[i], g.friends[k]) {
            assert g.friends[k] in f.friends;
          }
        }
      }
    }
  }

  /** The objects of `ts` that none of the first `i` bullets touches: those
      still alive when bullet `i` takes its turn. */
  function AliveAt(bs: seq<Bullet>, i: int, ts: seq<Target>): seq<Target>
    requires 0 <= i <= |bs|
  {
    Filter(Unhit(bs[..i]), ts)
  }

  /** Bullet `i` touches nothing that is still alive at its turn. */
  predicate SurvivesTurn(bs: seq<Bullet>, i: int, f: Field)
    requires 0 <= i < |bs|
  {
    !HitsSome(bs[i], AliveAt(bs, i, f.enemies)) && !HitsSome(bs[i], AliveAt(bs, i, f.friends))
  }

  /** The bullets from index `i` on that survive their turn, in order. */
  function SurvivorsFrom(bs: seq<Bullet>, i: int, f: Field): seq<Bullet>
    requires 0 <= i <= |bs|
    decreases |bs| - i
  {
    if i == |bs| then []
    else (if SurvivesTurn(bs, i, f) then [bs[i]] else []) + SurvivorsFrom(bs, i + 1, f)
  }

  /** Bullet `i` removes from the objects alive at its turn exactly those it touches. */
  lemma AliveAtNext(bs: seq<Bullet>, i: int, ts: seq<Target>)
    requires 0 <= i < |bs|
    ensures Filter(Misses(bs[i]), AliveAt(bs, i, ts)) == AliveAt(bs, i + 1, ts)
  {
    forall t ensures Unhit(bs[..i + 1])(t) == (Unhit(bs[..i])(t) && Misses(bs[i])(t)) {
      HitByAnySnoc(bs, i, t);
    }
    FilterCompose(Unhit(bs[..i]), Misses(bs[i]), Unhit(bs[..i + 1]), ts);
  }

  /** The collision fold from bullet `i` on, started on the objects alive at
      that turn, keeps exactly the bullets that survive their turns. */
  lemma {:induction false} CollideFrom(bs: seq<Bullet>, i: int, f: Field, g: Field)
    requires 0 <= i <= |bs|
    requires g.enemies == AliveAt(bs, i, f.enemies) && g.friends == AliveAt(bs, i, f.friends)
    ensures Collide(bs[i..], g).bullets == SurvivorsFrom(bs, i, f)
    decreases |bs| - i
  {
    if i < |bs| {
      var b := bs[i];
      assert bs[i..][0] == b && bs[i..][1..] == bs[i + 1..];
      CountHits(b, g.enemies);
      CountHits(b, g.friends);
      AliveAtNext(bs, i, f.enemies);
      AliveAtNext(bs, i, f.friends);
      CollideFrom(bs, i + 1, f, Shot(b, g));
    }
  }

  /** A bullet survives the collision phase exactly when it touches no enemy
      and no friend that an earlier bullet of the tick left alive; survivors
      keep their order. */
  lemma CollideBulletsExact(bs: seq<Bullet>, f: Field)
    ensures Collide(bs, f).bullets == SurvivorsFrom(bs, 0, f)
  {
    assert bs[..0] == [];
    FilterKeepsAll(Unhit(bs[..0]), f.enemies);
    FilterKeepsAll(Unhit(bs[..0]), f.friends);
    assert bs[0..] == bs;
    CollideFrom(bs, 0, f, f);
  }
}
