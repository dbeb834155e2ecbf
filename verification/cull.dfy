/** The bullet loop as `ShooterEnv.step` writes it: walk a snapshot of the list,
    move each bullet in place, and remove it from the live list as soon as it
    has left the playfield.
 */
module Cull {
  import opened Seqs
  import opened Entities
  import opened Engine

  /** Moving one more bullet appends its survivor, if any, to the survivors so far. */
  lemma MoveBulletsSnoc(bs: seq<Bullet>, b: Bullet)
    ensures MoveBullets(bs + [b]) == MoveBullets(bs) + (if OutOfBounds(Advance(b)) then [] else [Advance(b)])
  {
    MapAppend(Advance, bs, [b]);
    FilterAppend(Not(OutOfBounds), MapSeq(Advance, bs), MapSeq(Advance, [b]));
    assert MapSeq(Advance, [b]) == [Advance(b)];
    assert Filter(Not(OutOfBounds), [Advance(b)])
        == (if OutOfBounds(Advance(b)) then [] else [Advance(b)]);
  }

  /** One turn of the loop: with the first `i` bullets done, the `i`-th sits at
      the end of the survivors so far; moving it and removing it if it left
      the playfield leaves the first `i + 1` bullets done. */
  lemma CullTurn(bullets: seq<Bullet>, i: int, live: seq<Bullet>)
    requires 0 <= i < |bullets|
    requires live == MoveBullets(bullets[..i]) + bullets[i..]
    ensures var j := |MoveBullets(bullets[..i])|;
            && j < |live| && live[j] == bullets[i]
            && |MoveBullets(bullets[..i + 1])| == j + (if OutOfBounds(Advance(live[j])) then 0 else 1)
            && (OutOfBounds(Advance(live[j])) ==>
                  live[..j] + live[j + 1..] == MoveBullets(bullets[..i + 1]) + bullets[i + 1..])
            && (!OutOfBounds(Advance(live[j])) ==>
                  live[..j] + [Advance(live[j])] + live[j + 1..] == MoveBullets(bullets[..i + 1]) + bullets[i + 1..])
  {
    var done := MoveBullets(bullets[..i]);
    var j := |done|;
    assert live[j] == bullets[i];
    assert live[..j] == done;
    assert live[j + 1..] == bullets[i + 1..];
    assert bullets[..i + 1] == bullets[..i] + [bullets[i]];
    MoveBulletsSnoc(bullets[..i], bullets[i]);
  }

  /** The loop as written: `live` starts as the whole list and `j` tracks
      where the snapshot's current bullet now sits in it. */
  method CullBullets(bullets: seq<Bullet>) returns (live: seq<Bullet>)
    ensures live == MoveBullets(bullets)
    ensures forall b | b in live :: InBox(b)
  {
    live := bullets;
    var i := 0;
    var j := 0;  // where the snapshot's i-th bullet now sits in `live`
    while i < |bullets|
      invariant 0 <= i <= |bullets|
      invariant j == |MoveBullets(bullets[..i])|
      invariant live == MoveBullets(bullets[..i]) + bullets[i..]
    {
      CullTurn(bullets, i, live);
      var moved := Advance(live[j]);
      if OutOfBounds(moved) {
        live := live[..j] + live[j + 1..];
      } else {
        live := live[..j] + [moved] + live[j + 1..];
        j := j + 1;
      }
      i := i + 1;
    }
    assert bullets[..i] == bullets;
  }
}
