/**
 * The collision log shared by the three broad-phase strategies. Balls are
 * identified by their index in the frame's ball list (reference identity), and
 * every invocation `ball.collision(other)` is recorded as one `Call`.
 */
module Calls {

  type BallId = nat

  /** One invocation `ball.collision(other)`. */
  datatype Call = Call(ball: BallId, other: BallId)

  /** The calls `for other in others: ball.collision(other)` makes, in order. */
  function CallsAgainst(ball: BallId, others: seq<BallId>): (r: seq<Call>)
    ensures |r| == |others|
  {
    if others == [] then []
    else CallsAgainst(ball, others[..|others| - 1]) + [Call(ball, others[|others| - 1])]
  }

  /** The k-th call is made against the k-th listed ball. */
  lemma {:induction false} CallsAgainstAt(ball: BallId, others: seq<BallId>, k: nat)
    requires k < |others|
    ensures CallsAgainst(ball, others)[k] == Call(ball, others[k])
  {
    if k < |others| - 1 {
      CallsAgainstAt(ball, others[..|others| - 1], k);
    }
  }

  /** Counts over a concatenation add up. */
  lemma CountSplit(whole: seq<Call>, a: seq<Call>, b: seq<Call>, c: Call)
    requires whole == a + b
    ensures multiset(whole)[c] == multiset(a)[c] + multiset(b)[c]
  {
  }

  /** The loop `for other in others: ball.collision(other)`, returning the calls it makes. */
  method CollideEach(ball: BallId, others: seq<BallId>) returns (calls: seq<Call>)
    ensures calls == CallsAgainst(ball, others)
  {
    calls := [];
    for u := 0 to |others|
      invariant calls == CallsAgainst(ball, others[..u])
    {
      calls := calls + [Call(ball, others[u])];
      assert others[..u + 1][..u] == others[..u];
    }
    assert others[..|others|] == others;
  }

  /** `ball` meets each listed ball as often as that ball is listed, and nobody else. */
  lemma {:induction false} CallsAgainstCount(ball: BallId, others: seq<BallId>, c: Call)
    ensures multiset(CallsAgainst(ball, others))[c]
         == if c.ball == ball then multiset(others)[c.other] else 0
  {
    if others != [] {
      var init := others[..|others| - 1];
      CallsAgainstCount(ball, init, c);
      assert others == init + [others[|others| - 1]];
    }
  }

  /**
   * The calls that get past the identity guard at the top of `collision`
   * (a ball never collides with itself), in the order they were made.
   */
  function NarrowPhase(calls: seq<Call>): (r: seq<Call>)
    ensures |r| <= |calls|
    ensures forall k | 0 <= k < |r| :: r[k].ball != r[k].other
  {
    if calls == [] then []
    else
      var last := calls[|calls| - 1];
      NarrowPhase(calls[..|calls| - 1]) + (if last.ball == last.other then [] else [last])
  }

  /** The guard drops exactly the self-pairs and keeps every other call as often as it was made. */
  lemma {:induction false} NarrowPhaseCount(calls: seq<Call>, c: Call)
    ensures multiset(NarrowPhase(calls))[c] == if c.ball == c.other then 0 else multiset(calls)[c]
  {
    if calls != [] {
      var init := calls[..|calls| - 1];
      NarrowPhaseCount(init, c);
      assert calls == init + [calls[|calls| - 1]];
    }
  }

  /** The guard looks at each call on its own, so it splits over concatenation. */
  lemma {:induction false} NarrowPhaseAppend(front: seq<Call>, back: seq<Call>)
    ensures NarrowPhase(front + back) == NarrowPhase(front) + NarrowPhase(back)
  {
    if back != [] {
      var init, last := back[..|back| - 1], back[|back| - 1];
      NarrowPhaseAppend(front, init);
      assert (front + back)[..|front + back| - 1] == front + init;
      assert (front + back)[|front + back| - 1] == last;
    } else {
      assert front + back == front;
    }
  }

  /** No ball is listed twice. */
  predicate Distinct(s: seq<BallId>)
  {
    forall k, l | 0 <= k < l < |s| :: s[k] != s[l]
  }

  /** In a list without repeats, different positions hold different balls. */
  lemma DistinctAt(s: seq<BallId>, k: nat, l: nat)
    requires Distinct(s) && k < |s| && l < |s| && k != l
    ensures s[k] != s[l]
  {
    if l < k {
      assert s[l] != s[k];
    }
  }

  /** In a list without repeats, each listed ball occurs once. */
  lemma {:induction false} DistinctOnce(s: seq<BallId>, k: nat)
    requires Distinct(s) && k < |s|
    ensures multiset(s)[s[k]] == 1
  {
    if k < |s| - 1 {
      DistinctOnce(s[..|s| - 1], k);
    } else {
      assert s[k] !in multiset(s[..|s| - 1]);
    }
    assert s == s[..|s| - 1] + [s[|s| - 1]];
  }
}
