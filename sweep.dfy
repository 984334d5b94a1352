/**
 * `sweep_update`: inside each group of balls, every ball meets
 * itself and every ball listed after it. Nothing here depends on how
 * the groups were formed.
 */
module Sweep {
  import opened Calls

  /** An index pair into one group: the outer index i and the inner index j. */
  datatype Pair = Pair(i: nat, j: nat)

  /**
   * The index pairs (i, j) with i <= j < m, by increasing j: what the inner
   * loop `for j in range(i, m)` visits.
   */
  function RowPairs(i: nat, m: nat): (r: seq<Pair>)
    ensures |r| == if i <= m then m - i else 0
  {
    if m <= i then [] else RowPairs(i, m - 1) + [Pair(i, m - 1)]
  }

  /** The index pairs both loops visit for a group of length len while the outer index runs below n. */
  function TrianglePairs(len: nat, n: nat): seq<Pair>
  {
    if n == 0 then [] else TrianglePairs(len, n - 1) + RowPairs(n - 1, len)
  }

  /** Strict lexicographic order on index pairs: the order two nested ascending loops visit them. */
  predicate Before(p: Pair, q: Pair)
  {
    p.i < q.i || (p.i == q.i && p.j < q.j)
  }

  /** The calls for one group while the outer index runs below n, in the order they are made. */
  function GroupCalls(group: seq<BallId>, n: nat): (r: seq<Call>)
    requires n <= |group|
  {
    if n == 0 then []
    else GroupCalls(group, n - 1) + CallsAgainst(group[n - 1], group[n - 1..])
  }

  /** The calls `sweep_update` makes, group after group. */
  function SweepCalls(groups: seq<seq<BallId>>): seq<Call>
  {
    if groups == [] then []
    else
      var last := groups[|groups| - 1];
      SweepCalls(groups[..|groups| - 1]) + GroupCalls(last, |last|)
  }

  /** The two inner loops of `sweep_update` for one group. */
  method SweepGroup(group: seq<BallId>) returns (calls: seq<Call>)
    ensures calls == GroupCalls(group, |group|)
  {
    calls := [];
    for i := 0 to |group|
      invariant calls == GroupCalls(group, i)
    {
      var met := CollideEach(group[i], group[i..]);
      calls := calls + met;
    }
  }

  /** `sweep_update(sweep)`, returning the `collision` calls it makes in order. */
  method SweepUpdate(groups: seq<seq<BallId>>) returns (calls: seq<Call>)
    ensures calls == SweepCalls(groups)
  {
    calls := [];
    for g := 0 to |groups|
      invariant calls == SweepCalls(groups[..g])
    {
      var met := SweepGroup(groups[g]);
      calls := calls + met;
      assert groups[..g + 1][..g] == groups[..g];
    }
    assert groups[..|groups|] == groups;
  }

  // ----- The index pairs visited -----

  /** The k-th pair of the inner loop is (i, i + k). */
  lemma {:induction false} RowPairsAt(i: nat, m: nat, k: nat)
    requires i + k < m
    ensures RowPairs(i, m)[k] == Pair(i, i + k)
  {
    if i + k < m - 1 {
      RowPairsAt(i, m - 1, k);
    }
  }

  /** A whole group of length len gets len * (len + 1) / 2 calls. */
  lemma {:induction false} TrianglePairsLength(len: nat, n: nat)
    requires n <= len
    ensures 2 * |TrianglePairs(len, n)| == n * (2 * len - n + 1)
  {
    if n > 0 {
      var m := n - 1;
      assert |TrianglePairs(len, n)| == |TrianglePairs(len, m)| + (len - m);
      TrianglePairsLength(len, m);
      assert m * (2 * len - m + 1) + 2 * (len - m) == n * (2 * len - n + 1) by {
        assert n * (2 * len - n + 1) == (m + 1) * (2 * len - m);
      }
    }
  }

  /** Every visited pair has its outer index below n and i <= j < len. */
  lemma {:induction false} TrianglePairsAt(len: nat, n: nat, k: nat)
    requires k < |TrianglePairs(len, n)|
    ensures TrianglePairs(len, n)[k].i < n
    ensures TrianglePairs(len, n)[k].i <= TrianglePairs(len, n)[k].j < len
  {
    var init := TrianglePairs(len, n - 1);
    assert TrianglePairs(len, n) == init + RowPairs(n - 1, len);
    if k < |init| {
      TrianglePairsAt(len, n - 1, k);
    } else {
      RowPairsAt(n - 1, len, k - |init|);
    }
  }

  /** Of two visits, the earlier one is at the lexicographically smaller pair. */
  lemma {:induction false} TrianglePairsBefore(len: nat, n: nat, k: nat, l: nat)
    requires k < l < |TrianglePairs(len, n)|
    ensures Before(TrianglePairs(len, n)[k], TrianglePairs(len, n)[l])
  {
    var init := TrianglePairs(len, n - 1);
    assert TrianglePairs(len, n) == init + RowPairs(n - 1, len);
    if l < |init| {
      TrianglePairsBefore(len, n - 1, k, l);
    } else if k < |init| {
      TrianglePairsAt(len, n - 1, k);
      RowPairsAt(n - 1, len, l - |init|);
    } else {
      RowPairsAt(n - 1, len, k - |init|);
      RowPairsAt(n - 1, len, l - |init|);
    }
  }

  /**
   * The pair (a, b) with a <= b < len and a below n is visited, at the
   * position after the pairs of every earlier outer index.
   */
  lemma {:induction false} TrianglePairsVisit(len: nat, n: nat, a: nat, b: nat)
    requires a < n && a <= b < len
    ensures |TrianglePairs(len, a)| + (b - a) < |TrianglePairs(len, n)|
    ensures TrianglePairs(len, n)[|TrianglePairs(len, a)| + (b - a)] == Pair(a, b)
  {
    var init := TrianglePairs(len, n - 1);
    assert TrianglePairs(len, n) == init + RowPairs(n - 1, len);
    if a < n - 1 {
      TrianglePairsVisit(len, n - 1, a, b);
    } else {
      RowPairsAt(a, len, b - a);
    }
  }

  /** The pairs are visited in strictly increasing lexicographic order. */
  lemma TrianglePairsOrdered(len: nat, n: nat)
    ensures forall k, l | 0 <= k < l < |TrianglePairs(len, n)| ::
      Before(TrianglePairs(len, n)[k], TrianglePairs(len, n)[l])
  {
    forall k, l | 0 <= k < l < |TrianglePairs(len, n)| {
      TrianglePairsBefore(len, n, k, l);
    }
  }

  /**
   * The loops visit exactly the index pairs a <= b < len with a below n, each
   * of them once: a visit at position k is at a pair in that range, and the
   * only visit to a pair in it is the one `TrianglePairsVisit` names.
   */
  lemma TrianglePairsOnce(len: nat, n: nat, k: nat)
    requires k < |TrianglePairs(len, n)|
    ensures var p := TrianglePairs(len, n)[k];
      p.i < n && p.i <= p.j < len && k == |TrianglePairs(len, p.i)| + (p.j - p.i)
  {
    var p := TrianglePairs(len, n)[k];
    TrianglePairsAt(len, n, k);
    TrianglePairsVisit(len, n, p.i, p.j);
    var home := |TrianglePairs(len, p.i)| + (p.j - p.i);
    if k < home {
      TrianglePairsBefore(len, n, k, home);
    } else if home < k {
      TrianglePairsBefore(len, n, home, k);
    }
  }

  /** The k-th call of a group pairs the two balls at the k-th visited index pair. */
  lemma {:induction false} GroupCallsPairs(group: seq<BallId>, n: nat)
    requires n <= |group|
    ensures |GroupCalls(group, n)| == |TrianglePairs(|group|, n)|
    ensures forall k | 0 <= k < |GroupCalls(group, n)| ::
      var p := TrianglePairs(|group|, n)[k];
      p.i <= p.j < |group| && GroupCalls(group, n)[k] == Call(group[p.i], group[p.j])
  {
    if n > 0 {
      var i := n - 1;
      GroupCallsPairs(group, i);
      var init, row := GroupCalls(group, i), CallsAgainst(group[i], group[i..]);
      var pinit, prow := TrianglePairs(|group|, i), RowPairs(i, |group|);
      assert GroupCalls(group, n) == init + row;
      assert TrianglePairs(|group|, n) == pinit + prow;
      forall k | 0 <= k < |row|
        ensures prow[k] == Pair(i, i + k) && row[k] == Call(group[i], group[i + k])
      {
        RowPairsAt(i, |group|, k);
        CallsAgainstAt(group[i], group[i..], k);
      }
    }
  }

  // ----- The balls met -----

  /** In a list without repeats, the ball at k is listed once from lo on when lo <= k. */
  lemma {:induction false} DistinctSuffixCount(s: seq<BallId>, lo: nat, k: nat)
    requires Distinct(s) && lo <= |s| && k < |s|
    ensures multiset(s[lo..])[s[k]] == if lo <= k then 1 else 0
    decreases |s| - lo
  {
    if lo < |s| {
      DistinctSuffixCount(s, lo + 1, k);
      assert s[lo..] == [s[lo]] + s[lo + 1..];
    }
  }

  /** Neither ball of a call is outside the group. */
  lemma {:induction false} GroupCallsInside(group: seq<BallId>, n: nat, c: Call)
    requires n <= |group|
    requires c.ball !in group || c.other !in group
    ensures multiset(GroupCalls(group, n))[c] == 0
  {
    if n > 0 {
      var i := n - 1;
      var init, row := GroupCalls(group, i), CallsAgainst(group[i], group[i..]);
      assert multiset(init)[c] == 0 by {
        GroupCallsInside(group, i, c);
      }
      assert multiset(row)[c] == 0 by {
        CallsAgainstCount(group[i], group[i..], c);
        if c.ball == group[i] {
          assert c.other !in multiset(group[i..]);
        }
      }
      CountSplit(GroupCalls(group, n), init, row, c);
    }
  }

  /**
   * In a group without repeats, the ball at index a meets the
   * ball at index b exactly once when a <= b, and never when a > b.
   */
  lemma {:induction false} GroupCallsOnce(group: seq<BallId>, n: nat, a: nat, b: nat)
    requires Distinct(group) && n <= |group| && a < |group| && b < |group|
    ensures multiset(GroupCalls(group, n))[Call(group[a], group[b])] == if a < n && a <= b then 1 else 0
  {
    if n > 0 {
      var i := n - 1;
      var init, row := GroupCalls(group, i), CallsAgainst(group[i], group[i..]);
      var c := Call(group[a], group[b]);
      assert multiset(init)[c] == if a < i && a <= b then 1 else 0 by {
        GroupCallsOnce(group, i, a, b);
      }
      assert multiset(row)[c] == if a == i && i <= b then 1 else 0 by {
        CallsAgainstCount(group[i], group[i..], c);
        DistinctSuffixCount(group, i, b);
        assert group[a] == group[i] <==> a == i;
      }
      assert multiset(GroupCalls(group, n))[c] == multiset(init)[c] + multiset(row)[c] by {
        CountSplit(GroupCalls(group, n), init, row, c);
      }
    }
  }

  /**
   * Two different balls of a group without repeats get past the identity
   * guard exactly once between them, in the order they are listed; a ball
   * paired with itself never does.
   */
  lemma SweepGroupNarrow(group: seq<BallId>, a: nat, b: nat)
    requires Distinct(group) && a < |group| && b < |group|
    ensures a != b ==>
      multiset(NarrowPhase(GroupCalls(group, |group|)))[Call(group[a], group[b])]
      + multiset(NarrowPhase(GroupCalls(group, |group|)))[Call(group[b], group[a])] == 1
    ensures multiset(NarrowPhase(GroupCalls(group, |group|)))[Call(group[a], group[a])] == 0
  {
    var calls := GroupCalls(group, |group|);
    GroupCallsOnce(group, |group|, a, b);
    GroupCallsOnce(group, |group|, b, a);
    NarrowPhaseCount(calls, Call(group[a], group[b]));
    NarrowPhaseCount(calls, Call(group[b], group[a]));
    NarrowPhaseCount(calls, Call(group[a], group[a]));
  }

  // ----- Group by group -----

  /** The calls for a list of groups are those of its first part followed by those of the rest. */
  lemma {:induction false} SweepCallsAppend(front: seq<seq<BallId>>, back: seq<seq<BallId>>)
    ensures SweepCalls(front + back) == SweepCalls(front) + SweepCalls(back)
  {
    if back != [] {
      var last := back[|back| - 1];
      var init := back[..|back| - 1];
      var tail := GroupCalls(last, |last|);
      SweepCallsAppend(front, init);
      assert (front + back)[..|front + back| - 1] == front + init;
      assert (front + back)[|front + back| - 1] == last;
      calc {
        SweepCalls(front + back);
        SweepCalls(front + init) + tail;
        SweepCalls(front) + SweepCalls(init) + tail;
        SweepCalls(front) + (SweepCalls(init) + tail);
      }
    } else {
      assert front + back == front;
    }
  }

  /**
   * Groups are processed one after another: the calls of group g form one
   * block, after those of every earlier group and before those of every later one.
   */
  lemma SweepCallsBlock(groups: seq<seq<BallId>>, g: nat)
    requires g < |groups|
    ensures SweepCalls(groups)
         == SweepCalls(groups[..g]) + GroupCalls(groups[g], |groups[g]|) + SweepCalls(groups[g + 1..])
  {
    assert groups == groups[..g] + [groups[g]] + groups[g + 1..];
    SweepCallsAppend(groups[..g] + [groups[g]], groups[g + 1..]);
    SweepCallsAppend(groups[..g], [groups[g]]);
    assert SweepCalls([groups[g]]) == GroupCalls(groups[g], |groups[g]|) by {
      assert [groups[g]][..0] == groups[..0];
    }
  }

  /** Total calls over all groups, each group of length len giving len * (len + 1) / 2. */
  function TriangleTotal(groups: seq<seq<BallId>>): nat
  {
    if groups == [] then 0
    else TriangleTotal(groups[..|groups| - 1]) + |groups[|groups| - 1]| * (|groups[|groups| - 1]| + 1) / 2
  }

  /** `sweep_update` makes len * (len + 1) / 2 calls per group of length len. */
  lemma {:induction false} SweepCallsLength(groups: seq<seq<BallId>>)
    ensures |SweepCalls(groups)| == TriangleTotal(groups)
  {
    if groups != [] {
      var last := groups[|groups| - 1];
      SweepCallsLength(groups[..|groups| - 1]);
      GroupCallsPairs(last, |last|);
      TrianglePairsLength(|last|, |last|);
    }
  }
}
