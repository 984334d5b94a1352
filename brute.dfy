/**
 * `brute_update`: every ball meets every ball, itself included,
 * in row-major order.
 */
module Brute {
  import opened Calls

  /** The calls of the first n rounds of the outer loop, in the order they are made. */
  function BruteRows(balls: seq<BallId>, n: nat): (r: seq<Call>)
    requires n <= |balls|
  {
    if n == 0 then [] else BruteRows(balls, n - 1) + CallsAgainst(balls[n - 1], balls)
  }

  /** `brute_update(balls)`, returning the `collision` calls it makes in order. */
  method BruteUpdate(balls: seq<BallId>) returns (calls: seq<Call>)
    ensures calls == BruteRows(balls, |balls|)
  {
    calls := [];
    for i := 0 to |balls|
      invariant calls == BruteRows(balls, i)
    {
      var met := CollideEach(balls[i], balls);
      calls := calls + met;
    }
  }

  /** Each round of the outer loop adds one call per ball. */
  lemma {:induction false} BruteRowsLength(balls: seq<BallId>, n: nat)
    requires n <= |balls|
    ensures |BruteRows(balls, n)| == n * |balls|
  {
    if n > 0 {
      BruteRowsLength(balls, n - 1);
      assert (n - 1) * |balls| + |balls| == n * |balls|;
    }
  }

  /** Row-major order: the call at position p * n + q pairs ball p with ball q. */
  lemma {:induction false} BruteRowsAt(balls: seq<BallId>, n: nat, p: nat, q: nat)
    requires n <= |balls| && p < n && q < |balls|
    ensures p * |balls| + q < |BruteRows(balls, n)|
    ensures BruteRows(balls, n)[p * |balls| + q] == Call(balls[p], balls[q])
  {
    var init := BruteRows(balls, n - 1);
    assert BruteRows(balls, n) == init + CallsAgainst(balls[n - 1], balls);
    BruteRowsLength(balls, n - 1);
    if p < n - 1 {
      BruteRowsAt(balls, n - 1, p, q);
    } else {
      assert p * |balls| == |init|;
      CallsAgainstAt(balls[n - 1], balls, q);
    }
  }

  /** One more row of w calls. */
  lemma OneMoreRow(h: nat, w: nat)
    ensures (h + 1) * w == h * w + w
  {
  }

  /**
   * How often the first n rounds make call c: round k contributes one call
   * for each listing of c.other when its own ball is c.ball.
   */
  function Tally(balls: seq<BallId>, n: nat, c: Call): nat
    requires n <= |balls|
  {
    if n == 0 then 0
    else Tally(balls, n - 1, c) + if c.ball == balls[n - 1] then multiset(balls)[c.other] else 0
  }

  /** The calls of the first n rounds are counted by `Tally`. */
  lemma {:induction false} BruteRowsTally(balls: seq<BallId>, n: nat, c: Call)
    requires n <= |balls|
    ensures multiset(BruteRows(balls, n))[c] == Tally(balls, n, c)
  {
    if n > 0 {
      var init, row := BruteRows(balls, n - 1), CallsAgainst(balls[n - 1], balls);
      assert multiset(init)[c] == Tally(balls, n - 1, c) by {
        BruteRowsTally(balls, n - 1, c);
      }
      assert multiset(row)[c] == if c.ball == balls[n - 1] then multiset(balls)[c.other] else 0 by {
        CallsAgainstCount(balls[n - 1], balls, c);
      }
      assert multiset(BruteRows(balls, n))[c] == multiset(init)[c] + multiset(row)[c] by {
        CountSplit(BruteRows(balls, n), init, row, c);
      }
    }
  }

  /**
   * With no ball listed twice, the first n rounds pair the ball at index a
   * with the ball at index b exactly once when a < n, and never otherwise.
   */
  lemma {:induction false} TallyOnce(balls: seq<BallId>, n: nat, a: nat, b: nat)
    requires Distinct(balls) && n <= |balls| && a < |balls| && b < |balls|
    ensures Tally(balls, n, Call(balls[a], balls[b])) == if a < n then 1 else 0
  {
    if n > 0 {
      TallyOnce(balls, n - 1, a, b);
      if a == n - 1 {
        DistinctOnce(balls, b);
      } else {
        DistinctAt(balls, a, n - 1);
      }
    }
  }

  /** A call involving a ball that is not listed is never made. */
  lemma {:induction false} TallyInside(balls: seq<BallId>, n: nat, c: Call)
    requires n <= |balls| && (c.ball !in balls || c.other !in balls)
    ensures Tally(balls, n, c) == 0
  {
    if n > 0 {
      TallyInside(balls, n - 1, c);
      if c.ball == balls[n - 1] {
        assert c.other !in multiset(balls);
      }
    }
  }

  /**
   * `brute_update` calls every ordered pair of listed balls exactly once when
   * no ball is listed twice, and never a ball that is not listed.
   */
  lemma BruteOnce(balls: seq<BallId>, c: Call)
    requires Distinct(balls)
    ensures multiset(BruteRows(balls, |balls|))[c] == if c.ball in balls && c.other in balls then 1 else 0
  {
    BruteRowsTally(balls, |balls|, c);
    if c.ball in balls && c.other in balls {
      var a :| 0 <= a < |balls| && balls[a] == c.ball;
      var b :| 0 <= b < |balls| && balls[b] == c.other;
      TallyOnce(balls, |balls|, a, b);
    } else {
      TallyInside(balls, |balls|, c);
    }
  }

  /**
   * The self-pairs stop at the identity guard of `collision`; every ordered
   * pair of two different listed balls gets past it once.
   */
  lemma BruteNarrow(balls: seq<BallId>, c: Call)
    requires Distinct(balls)
    ensures multiset(NarrowPhase(BruteRows(balls, |balls|)))[c]
         == if c.ball != c.other && c.ball in balls && c.other in balls then 1 else 0
  {
    BruteOnce(balls, c);
    NarrowPhaseCount(BruteRows(balls, |balls|), c);
  }

  /** A round of the outer loop drops, at the guard, one call per listing of its own ball. */
  lemma {:induction false} NarrowAgainstLength(ball: BallId, others: seq<BallId>)
    ensures |NarrowPhase(CallsAgainst(ball, others))| == |others| - multiset(others)[ball]
  {
    if others != [] {
      var init := others[..|others| - 1];
      NarrowAgainstLength(ball, init);
      assert others == init + [others[|others| - 1]];
    }
  }

  /**
   * With n distinct balls, exactly n of the n * n calls are self-pairs that
   * the guard stops, so n * (n - 1) reach the narrow phase.
   */
  lemma {:induction false} BruteNarrowLength(balls: seq<BallId>, n: nat)
    requires Distinct(balls) && n <= |balls|
    ensures |NarrowPhase(BruteRows(balls, n))| == n * (|balls| - 1)
  {
    if n > 0 {
      var init, row := BruteRows(balls, n - 1), CallsAgainst(balls[n - 1], balls);
      assert |NarrowPhase(BruteRows(balls, n))| == |NarrowPhase(init)| + |NarrowPhase(row)| by {
        assert BruteRows(balls, n) == init + row;
        NarrowPhaseAppend(init, row);
      }
      assert |NarrowPhase(row)| == |balls| - 1 by {
        NarrowAgainstLength(balls[n - 1], balls);
        DistinctOnce(balls, n - 1);
      }
      BruteNarrowLength(balls, n - 1);
      OneMoreRow(n - 1, |balls| - 1);
    }
  }
}
