/** Order-preserving filtering, counting and mapping over sequences.

    The environment removes objects from its lists while iterating over a
    snapshot of them; every such removal is modelled here as a positional
    filter that keeps the survivors in their original order.
 */
module Seqs {

  /** The complement of a predicate. */
  function Not<T>(p: T -> bool): T -> bool {
    x => !p(x)
  }

  /** The elements of `xs` satisfying `p`, in their original order. */
  function Filter<T>(p: T -> bool, xs: seq<T>): (r: seq<T>)
    ensures |r| <= |xs|
    ensures forall x | x in r :: x in xs && p(x)
    decreases |xs|
  {
    if xs == [] then []
    else if p(xs[0]) then [xs[0]] + Filter(p, xs[1..])
    else Filter(p, xs[1..])
  }

  /** The number of elements of `xs` satisfying `p`. */
  function Count<T>(p: T -> bool, xs: seq<T>): (n: nat)
    ensures n <= |xs|
    decreases |xs|
  {
    if xs == [] then 0
    else (if p(xs[0]) then 1 else 0) + Count(p, xs[1..])
  }

  /** `f` applied to every element of `xs`. */
  function MapSeq<A, B>(f: A -> B, xs: seq<A>): (r: seq<B>)
    ensures |r| == |xs|
    ensures forall i | 0 <= i < |xs| :: r[i] == f(xs[i])
  {
    seq(|xs|, i requires 0 <= i < |xs| => f(xs[i]))
  }

  /** Removing the elements that satisfy `p` removes exactly `Count(p, xs)` of them. */
  lemma {:induction false} FilterCount<T>(p: T -> bool, xs: seq<T>)
    ensures |Filter(Not(p), xs)| + Count(p, xs) == |xs|
    decreases |xs|
  {
    if xs != [] {
      FilterCount(p, xs[1..]);
    }
  }

  /** Every element that satisfies `p` is kept by the filter. */
  lemma {:induction false} FilterKeeps<T>(p: T -> bool, xs: seq<T>, x: T)
    requires x in xs && p(x)
    ensures x in Filter(p, xs)
    decreases |xs|
  {
    if xs[0] != x {
      assert x in xs[1..];
      FilterKeeps(p, xs[1..], x);
    }
  }

  /** The filter removes nothing exactly when every element satisfies `p`. */
  lemma {:induction false} FilterKeepsAll<T>(p: T -> bool, xs: seq<T>)
    ensures Filter(p, xs) == xs <==> forall i | 0 <= i < |xs| :: p(xs[i])
    decreases |xs|
  {
    if xs != [] {
      FilterKeepsAll(p, xs[1..]);
      if !p(xs[0]) {
        assert |Filter(p, xs)| < |xs|;
      }
      if forall i | 0 <= i < |xs| :: p(xs[i]) {
        assert forall i | 0 <= i < |xs[1..]| :: p(xs[1..][i]) by {
          forall i | 0 <= i < |xs[1..]| ensures p(xs[1..][i]) {
            assert xs[1..][i] == xs[i + 1];
          }
        }
      } else {
        var k :| 0 <= k < |xs| && !p(xs[k]);
        if k > 0 {
          assert xs[1..][k - 1] == xs[k];
          if p(xs[0]) {
            assert Filter(p, xs)[1..] == Filter(p, xs[1..]);
          }
        }
      }
    }
  }

  /** A count is zero exactly when no element satisfies the predicate. */
  lemma {:induction false} CountZero<T>(p: T -> bool, xs: seq<T>)
    ensures Count(p, xs) == 0 <==> forall i | 0 <= i < |xs| :: !p(xs[i])
    decreases |xs|
  {
    if xs != [] {
      CountZero(p, xs[1..]);
      if Count(p, xs) == 0 {
        forall i | 0 <= i < |xs| ensures !p(xs[i]) {
          if i > 0 {
            assert xs[1..][i - 1] == xs[i];
          }
        }
      } else if !p(xs[0]) {
        var k :| 0 <= k < |xs[1..]| && p(xs[1..][k]);
        assert xs[k + 1] == xs[1..][k];
      }
    }
  }

  /** Filtering a concatenation filters each part and keeps the parts in order. */
  lemma {:induction false} FilterAppend<T>(p: T -> bool, a: seq<T>, b: seq<T>)
    ensures Filter(p, a + b) == Filter(p, a) + Filter(p, b)
    decreases |a|
  {
    if a != [] {
      assert (a + b)[1..] == a[1..] + b;
      FilterAppend(p, a[1..], b);
    } else {
      assert a + b == b;
    }
  }

  /** Filtering twice is filtering once by the conjunction. */
  lemma {:induction false} FilterCompose<T>(p: T -> bool, q: T -> bool, pq: T -> bool, xs: seq<T>)
    requires forall x :: pq(x) == (p(x) && q(x))
    ensures Filter(q, Filter(p, xs)) == Filter(pq, xs)
    decreases |xs|
  {
    if xs != [] {
      FilterCompose(p, q, pq, xs[1..]);
    }
  }

  /** Mapping distributes over concatenation. */
  lemma MapAppend<A, B>(f: A -> B, a: seq<A>, b: seq<A>)
    ensures MapSeq(f, a + b) == MapSeq(f, a) + MapSeq(f, b)
  {
  }

  /** Filtering a mapped sequence keeps exactly the images that pass the filter. */
  lemma FilterMapMembers<A, B>(p: B -> bool, f: A -> B, xs: seq<A>, y: B)
    ensures y in Filter(p, MapSeq(f, xs)) <==> p(y) && exists i | 0 <= i < |xs| :: y == f(xs[i])
  {
    var ys := MapSeq(f, xs);
    if p(y) && exists i | 0 <= i < |xs| :: y == f(xs[i]) {
      var i :| 0 <= i < |xs| && y == f(xs[i]);
      assert ys[i] == y;
      FilterKeeps(p, ys, y);
    }
    if y in Filter(p, ys) {
      var i :| 0 <= i < |ys| && ys[i] == y;
    }
  }
}
