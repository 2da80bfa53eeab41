/** How the 10001 equally likely draws of the random generator divide among the servers. */
module Sampling {
  import opened OrderedKeys
  import opened LoadBalance
  import opened Scheduler

  /** A non-empty table of positive scores in iteration order. */
  ghost predicate Table(w: Weights, ids: seq<nat>) {
    Lists(ids, w) && Positive(w) && Increasing(ids) && ids != []
  }

  ghost function Total(w: Weights, ids: seq<nat>): real
    requires Table(w, ids)
  {
    Mark(w, ids, |ids| - 1)
  }

  /** The draws that select server i. */
  ghost function Draws(w: Weights, ids: seq<nat>, i: nat): set<nat>
    requires Table(w, ids) && i < |ids|
    requires Drawable(RankMap(w, ids, |ids|))
  {
    set k: nat | k <= FACTOR && Pick(RankMap(w, ids, |ids|), k) == ids[i]
  }

  lemma TableDrawable(w: Weights, ids: seq<nat>)
    requires Table(w, ids)
    ensures Drawable(RankMap(w, ids, |ids|))
    ensures TopKey(RankMap(w, ids, |ids|)) == Total(w, ids) > 0.0
  {
    var n, rank := |ids|, RankMap(w, ids, |ids|);
    RankMapIsPrefixSums(w, ids, n);
    assert Mark(w, ids, n - 1) in rank;
    var i :| 0 <= i < n && TopKey(rank) == Mark(w, ids, i);
    MarksIncrease(w, ids, i, n - 1);
    PrefixIncreases(w, ids, 0, n);
  }

  /** The largest draw whose rank is at most x. */
  ghost function Cut(x: real, total: real): int
    requires total > 0.0
  {
    (FACTOR as real * x / total).Floor
  }

  lemma QuotientOrder(k: real, x: real, total: real)
    requires total > 0.0
    ensures k * total <= x <==> k <= x / total
  {
    var q := x / total;
    assert q * total == x;
    if k <= q { assert (q - k) * total >= 0.0; } else { assert (k - q) * total > 0.0; }
  }

  ghost function RankOfDraw(k: nat, total: real): real { k as real / FACTOR as real * total }

  lemma CutCounts(k: nat, x: real, total: real)
    requires total > 0.0
    ensures RankOfDraw(k, total) <= x <==> k <= Cut(x, total)
  {
    var f := k as real / FACTOR as real;
    assert f * FACTOR as real == k as real;
    assert f * total * FACTOR as real == k as real * total by {
      assert f * total * FACTOR as real == f * FACTOR as real * total;
    }
    QuotientOrder(k as real, FACTOR as real * x, total);
  }

  predicate After(lo: int, k: nat) { lo < k }

  ghost function Between(lo: int, hi: int): set<nat> { set k: nat | k <= hi && After(lo, k) }

  lemma {:induction false} BetweenSize(lo: int, hi: int)
    requires -1 <= lo <= hi
    ensures |Between(lo, hi)| == hi - lo
    decreases hi - lo
  {
    if lo < hi {
      BetweenSize(lo, hi - 1);
      assert Between(lo, hi) == Between(lo, hi - 1) + {hi};
    } else {
      assert Between(lo, hi) == {};
    }
  }

  /** The largest draw below server i. */
  ghost function Below(w: Weights, ids: seq<nat>, i: nat): int
    requires Table(w, ids) && i <= |ids| && Total(w, ids) > 0.0
  {
    if i == 0 then -1 else Cut(Mark(w, ids, i - 1), Total(w, ids))
  }

  lemma CutMonotone(x: real, y: real, total: real)
    requires total > 0.0 && x <= y
    ensures Cut(x, total) <= Cut(y, total)
  {
    var a, b := FACTOR as real * x, FACTOR as real * y;
    assert (a / total) * total == a && (b / total) * total == b;
    QuotientOrder(a / total, b, total);
  }

  lemma CutOfTotal(total: real)
    requires total > 0.0
    ensures Cut(total, total) == FACTOR
  {
    assert FACTOR as real * total / total == FACTOR as real;
  }

  lemma BelowOrdered(w: Weights, ids: seq<nat>, i: nat)
    requires Table(w, ids) && i < |ids| && Total(w, ids) > 0.0
    ensures -1 <= Below(w, ids, i) <= Below(w, ids, i + 1) <= FACTOR
  {
    var total, n := Total(w, ids), |ids|;
    MarksIncrease(w, ids, i, n - 1);
    CutMonotone(Mark(w, ids, i), total, total);
    CutOfTotal(total);
    if i > 0 {
      MarksIncrease(w, ids, i - 1, i);
      CutMonotone(Mark(w, ids, i - 1), Mark(w, ids, i), total);
      PrefixIncreases(w, ids, 0, i);
      CutCounts(0, Mark(w, ids, i - 1), total);
    } else {
      PrefixIncreases(w, ids, 0, 1);
      CutCounts(0, Mark(w, ids, 0), total);
    }
  }

  lemma IntervalOfDraw(w: Weights, ids: seq<nat>, i: nat, k: nat, r: real)
    requires Table(w, ids) && i < |ids| && Total(w, ids) > 0.0
    requires r == RankOfDraw(k, Total(w, ids))
    ensures InInterval(w, ids, i, r) <==> Below(w, ids, i) < k <= Below(w, ids, i + 1)
  {
    CutCounts(k, Mark(w, ids, i), Total(w, ids));
    if i > 0 { CutCounts(k, Mark(w, ids, i - 1), Total(w, ids)); }
  }

  lemma DrawSelects(w: Weights, ids: seq<nat>, i: nat, k: nat)
    requires Table(w, ids) && i < |ids| && k <= FACTOR
    requires Total(w, ids) > 0.0 && Drawable(RankMap(w, ids, |ids|))
    ensures Pick(RankMap(w, ids, |ids|), k) == ids[i] <==> Below(w, ids, i) < k <= Below(w, ids, i + 1)
  {
    TableDrawable(w, ids);
    var rank, total := RankMap(w, ids, |ids|), Total(w, ids);
    RandomRankBounded(rank, k);
    var r := RandomRank(rank, k);
    assert r == RankOfDraw(k, total);
    IntervalOfDraw(w, ids, i, k, r);
    SelectsInterval(w, ids, r, i);
  }

  lemma DrawsAreBetween(w: Weights, ids: seq<nat>, i: nat)
    requires Table(w, ids) && i < |ids|
    ensures Total(w, ids) > 0.0 && Drawable(RankMap(w, ids, |ids|))
    ensures -1 <= Below(w, ids, i) <= Below(w, ids, i + 1) <= FACTOR
    ensures Draws(w, ids, i) == Between(Below(w, ids, i), Below(w, ids, i + 1))
  {
    TableDrawable(w, ids);
    BelowOrdered(w, ids, i);
    forall k: nat ensures k in Draws(w, ids, i) <==> k in Between(Below(w, ids, i), Below(w, ids, i + 1)) {
      if k <= FACTOR { DrawSelects(w, ids, i, k); }
    }
  }

  /** Exact fairness of the sampling: a server other than the first is selected by a number
      of draws within 1 of its proportional share of 10000, the first by a surplus in (0, 1]. */
  lemma DrawShare(w: Weights, ids: seq<nat>, i: nat)
    requires Table(w, ids) && i < |ids|
    ensures Total(w, ids) > 0.0 && Drawable(RankMap(w, ids, |ids|))
    ensures var surplus := |Draws(w, ids, i)| as real - 10000.0 * w[ids[i]] / Total(w, ids);
            if i == 0 then 0.0 < surplus <= 1.0 else -1.0 < surplus < 1.0
  {
    DrawsAreBetween(w, ids, i);
    BetweenSize(Below(w, ids, i), Below(w, ids, i + 1));
    var total := Total(w, ids);
    var hi := FACTOR as real * Mark(w, ids, i) / total;
    assert |Draws(w, ids, i)| == hi.Floor - Below(w, ids, i);
    if i > 0 {
      var lo := FACTOR as real * Mark(w, ids, i - 1) / total;
      assert Mark(w, ids, i) - Mark(w, ids, i - 1) == w[ids[i]];
      ShareSplits(Mark(w, ids, i - 1), w[ids[i]], total);
      assert hi - lo == FACTOR as real * w[ids[i]] / total;
    } else {
      assert Mark(w, ids, 0) == Prefix(w, ids, 0) + w[ids[0]];
    }
  }

  lemma ShareSplits(x: real, y: real, total: real)
    requires total > 0.0
    ensures FACTOR as real * (x + y) / total - FACTOR as real * x / total == FACTOR as real * y / total
  {
  }

  ghost function DrawSum(w: Weights, ids: seq<nat>, n: nat): nat
    requires Table(w, ids) && n <= |ids|
    requires Drawable(RankMap(w, ids, |ids|))
  {
    if n == 0 then 0 else DrawSum(w, ids, n - 1) + |Draws(w, ids, n - 1)|
  }

  lemma {:induction false} DrawSumBelow(w: Weights, ids: seq<nat>, n: nat)
    requires Table(w, ids) && n <= |ids|
    requires Total(w, ids) > 0.0 && Drawable(RankMap(w, ids, |ids|))
    ensures DrawSum(w, ids, n) == Below(w, ids, n) + 1
  {
    if n > 0 {
      DrawSumBelow(w, ids, n - 1);
      DrawsAreBetween(w, ids, n - 1);
      BetweenSize(Below(w, ids, n - 1), Below(w, ids, n));
    }
  }

  /** No draw is lost and none counts for two servers: the counts add up to all 10001. */
  lemma DrawsPartition(w: Weights, ids: seq<nat>)
    requires Table(w, ids)
    ensures Drawable(RankMap(w, ids, |ids|))
    ensures DrawSum(w, ids, |ids|) == 10001
  {
    TableDrawable(w, ids);
    DrawSumBelow(w, ids, |ids|);
    CutOfTotal(Total(w, ids));
  }

  /** Right after any rebalance the shares are those of the scores now in the registry. */
  lemma FairAfterRebalance(s: State, ids: seq<nat>, i: nat)
    requires Coherent(s) && ids == Ascending(s.svrInfo.Keys) && i < |ids|
    ensures var w := Scores(s.svrInfo);
            && Table(w, ids) && Rebalanced(s).rank == RankMap(w, ids, |ids|)
            && Total(w, ids) > 0.0 && Drawable(RankMap(w, ids, |ids|))
            && var surplus := |Draws(w, ids, i)| as real - 10000.0 * s.svrInfo[ids[i]].score / Total(w, ids);
               if i == 0 then 0.0 < surplus <= 1.0 else -1.0 < surplus < 1.0
  {
    hide Ranks, Draws, Ascending, NamesOnce, RankMap, Prefix, Mark;
    var w := Scores(s.svrInfo);
    assert w.Keys == s.svrInfo.Keys;
    RanksOf(w, ids);
    DrawShare(w, ids, i);
  }
}
