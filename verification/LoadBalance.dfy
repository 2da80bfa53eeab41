/** Load scores and the weighted choice of a producer: the score a producer reports,
    the rank map `Rebalance` builds from the scores, and the map's `lower_bound`. */
module LoadBalance {
  import opened OrderedKeys

  // ---------- scores ----------

  const TPS_INTERVAL := 10.0

  /** Average send time (ms) a TPS report stores for the messages counted in one interval. */
  function AvgSpeed(count: nat): real {
    if count == 0 then 0.0 else 1000.0 * TPS_INTERVAL / count as real
  }

  /** The score formula of common.cpp. */
  function CalLoadBalanceScore(avgTime: real): real
    requires avgTime + 7.0 != 0.0
  {
    10.0 * 7.0 / (avgTime + 7.0)
  }

  /** The score a producer sends: a floor value when it has tasks but completed nothing. */
  function ReportedScore(avgTime: real, curTaskCount: int): real
    requires avgTime + 7.0 != 0.0
  {
    if avgTime < 0.0001 && curTaskCount != 0 then 0.0001 else CalLoadBalanceScore(avgTime)
  }

  lemma DivideOrder(x: real, a: real, b: real)
    requires 0.0 < x && 0.0 < a < b
    ensures 0.0 < x / b < x / a
  {
    var qa, qb := x / a, x / b;
    assert qa * a == x && qb * b == x;
    assert qb <= 0.0 ==> qb * b <= 0.0;
    assert qa <= 0.0 ==> qa * a <= 0.0;
    assert qa * a < qa * b;
    assert qa <= qb ==> qa * b <= qb * b;
  }

  /** What the average time and the formula mean: the interval of 10000 ms divided by the
      messages of the interval, and 70 divided by 7 ms plus the average time. */
  lemma ScoreMeaning(count: nat, avgTime: real)
    requires avgTime >= 0.0
    ensures AvgSpeed(0) == 0.0 && (count > 0 ==> AvgSpeed(count) * count as real == 10000.0)
    ensures CalLoadBalanceScore(avgTime) * (avgTime + 7.0) == 70.0
  {
  }

  /** Every score that can be reported is in (0, 10], so no reported score can make two
      entries of the rank map collide. */
  lemma ScoreRange(count: nat, tasks: int)
    ensures 0.0 < ReportedScore(AvgSpeed(count), tasks) <= 10.0
    ensures 0.0 < CalLoadBalanceScore(AvgSpeed(count)) <= 10.0
  {
    AvgSpeedNonNegative(count);
    if AvgSpeed(count) > 0.0 { DivideOrder(70.0, 7.0, AvgSpeed(count) + 7.0); }
  }

  /** Who gets which score: an idle producer the best one, one that has tasks but completed
      nothing the floor value, and among those that completed something (fewer than 10^8
      messages per interval) more messages give a higher score, above the floor. */
  lemma ScoreOrder(count: nat, count': nat, tasks: int, tasks': int)
    ensures ReportedScore(AvgSpeed(0), 0) == 10.0
    ensures tasks != 0 ==> ReportedScore(AvgSpeed(0), tasks) == 0.0001
    ensures 0 < count < count' <= 100_000_000 ==>
              0.0001 < ReportedScore(AvgSpeed(count), tasks) < ReportedScore(AvgSpeed(count'), tasks') < 10.0
  {
    if 0 < count < count' <= 100_000_000 {
      AvgSpeedOrder(count, count');
      var a, a' := AvgSpeed(count), AvgSpeed(count');
      AvgSpeedBounds(count);
      AvgSpeedBounds(count');
      DivideOrder(70.0, a' + 7.0, a + 7.0);
      DivideOrder(70.0, 7.0, a' + 7.0);
      DivideOrder(70.0, a + 7.0, 70000.0);
    }
  }

  lemma AvgSpeedOrder(count: nat, count': nat)
    requires 0 < count < count'
    ensures AvgSpeed(count') < AvgSpeed(count)
  {
    DivideOrder(10000.0, count as real, count' as real);
  }

  lemma AvgSpeedBounds(count: nat)
    requires 0 < count <= 100_000_000
    ensures 0.0001 <= AvgSpeed(count) <= 10000.0
  {
    var q := AvgSpeed(count);
    assert q * count as real == 10000.0;
    if q < 0.0001 { ProductBelow(q, 0.0001, count as real); ProductAtMost(0.0001, count as real, 100_000_000.0); }
    if q > 10000.0 { ProductBelow(10000.0, q, count as real); }
  }

  lemma ProductBelow(x: real, y: real, c: real)
    requires x < y && c > 0.0
    ensures x * c < y * c
  {
  }

  lemma ProductAtMost(x: real, c: real, d: real)
    requires x >= 0.0 && c <= d
    ensures x * c <= x * d
  {
  }

  lemma AvgSpeedNonNegative(count: nat)
    ensures AvgSpeed(count) >= 0.0
  {
    if count > 0 {
      var q := 10000.0 / count as real;
      assert q * count as real == 10000.0;
      assert q < 0.0 ==> q * count as real <= 0.0;
    }
  }

  // ---------- the rank map ----------

  type Weights = map<nat, real>

  ghost predicate Positive(w: Weights) { forall id :: id in w ==> w[id] > 0.0 }

  ghost predicate Lists(ids: seq<nat>, w: Weights) { forall i :: 0 <= i < |ids| ==> ids[i] in w }

  /** Sum of the weights of the first n servers in iteration order. */
  ghost function Prefix(w: Weights, ids: seq<nat>, n: nat): real
    requires Lists(ids, w) && n <= |ids|
  {
    if n == 0 then 0.0 else Prefix(w, ids, n - 1) + w[ids[n - 1]]
  }

  /** The rank at which server i is entered: the sum through i. */
  ghost function Mark(w: Weights, ids: seq<nat>, i: nat): real
    requires Lists(ids, w) && i < |ids|
  {
    Prefix(w, ids, i + 1)
  }

  /** The map after n iterations of the loop in `Rebalance`; a repeated key overwrites. */
  ghost function RankMap(w: Weights, ids: seq<nat>, n: nat): map<real, nat>
    requires Lists(ids, w) && n <= |ids|
  {
    if n == 0 then map[] else RankMap(w, ids, n - 1)[Prefix(w, ids, n) := ids[n - 1]]
  }

  /** What `Rebalance` leaves in the rank map for servers with these weights. */
  ghost function Ranks(w: Weights): map<real, nat> {
    var ids := Ascending(w.Keys);
    assert forall i :: 0 <= i < |ids| ==> ids[i] in ids;
    RankMap(w, ids, |ids|)
  }

  lemma RanksOf(w: Weights, ids: seq<nat>)
    requires ids == Ascending(w.Keys)
    ensures Lists(ids, w) && Increasing(ids) && Ranks(w) == RankMap(w, ids, |ids|)
  {
    assert forall i :: 0 <= i < |ids| ==> ids[i] in ids;
  }

  lemma {:induction false} PrefixIncreases(w: Weights, ids: seq<nat>, i: nat, j: nat)
    requires Lists(ids, w) && Positive(w) && i < j <= |ids|
    ensures Prefix(w, ids, i) < Prefix(w, ids, j)
    decreases j
  {
    assert w[ids[j - 1]] > 0.0;
    if i < j - 1 { PrefixIncreases(w, ids, i, j - 1); }
  }

  /** With positive scores no key is overwritten: the keys are exactly the running
      prefix sums and each one names the server that completes it. */
  lemma {:induction false} RankMapIsPrefixSums(w: Weights, ids: seq<nat>, n: nat)
    requires Lists(ids, w) && Positive(w) && n <= |ids|
    ensures |RankMap(w, ids, n)| == n
    ensures forall i :: 0 <= i < n ==>
            Mark(w, ids, i) in RankMap(w, ids, n) && RankMap(w, ids, n)[Mark(w, ids, i)] == ids[i]
    ensures forall k :: k in RankMap(w, ids, n) ==> exists i :: 0 <= i < n && k == Mark(w, ids, i)
  {
    if n > 0 {
      RankMapIsPrefixSums(w, ids, n - 1);
      var prev, last := RankMap(w, ids, n - 1), Mark(w, ids, n - 1);
      forall i | 0 <= i < n - 1 ensures Mark(w, ids, i) < last {
        PrefixIncreases(w, ids, i + 1, n);
      }
      assert last !in prev;
      assert RankMap(w, ids, n) == prev[last := ids[n - 1]];
    }
  }

  // ---------- lower_bound ----------

  ghost predicate FirstNotLess(rank: map<real, nat>, r: real, key: real) {
    key in rank && r <= key && forall k :: k in rank && r <= k ==> key <= k
  }

  lemma LeastKeyExists(keys: set<real>, y: real) returns (least: real)
    requires y in keys
    ensures least in keys && forall k :: k in keys ==> least <= k
    decreases keys
  {
    if k :| k in keys && k < y {
      least := LeastKeyExists(keys - {y}, k);
      assert forall x :: x in keys ==> x == y || x in keys - {y};
    } else {
      least := y;
    }
  }

  /** `lower_bound`: the smallest key not less than r. */
  ghost function LowerBound(rank: map<real, nat>, r: real): (key: real)
    requires exists k :: k in rank && r <= k
    ensures FirstNotLess(rank, r, key)
  {
    assert exists key :: FirstNotLess(rank, r, key) by {
      var above := set k | k in rank.Keys && r <= k;
      var k0 :| k0 in rank && r <= k0;
      assert k0 in above;
      var least := LeastKeyExists(above, k0);
      assert FirstNotLess(rank, r, least) by {
        assert forall k :: k in rank && r <= k ==> k in above;
      }
    }
    var key :| FirstNotLess(rank, r, key);
    key
  }

  ghost predicate Topmost(rank: map<real, nat>, key: real) {
    key in rank && forall k :: k in rank ==> k <= key
  }

  lemma TopKeyExists(keys: set<real>, y: real) returns (top: real)
    requires y in keys
    ensures top in keys && forall k :: k in keys ==> k <= top
    decreases keys
  {
    if k :| k in keys && y < k {
      top := TopKeyExists(keys - {y}, k);
      assert forall x :: x in keys ==> x == y || x in keys - {y};
    } else {
      top := y;
    }
  }

  lemma TopmostExists(rank: map<real, nat>)
    requires rank != map[]
    ensures exists key :: Topmost(rank, key)
  {
    if forall k :: k !in rank.Keys { assert false; }
    var some :| some in rank.Keys;
    var top := TopKeyExists(rank.Keys, some);
    assert Topmost(rank, top);
  }

  /** `rbegin()->first`: the total of the scores. */
  ghost function TopKey(rank: map<real, nat>): (key: real)
    requires rank != map[]
    ensures Topmost(rank, key)
  {
    TopmostExists(rank);
    var key :| Topmost(rank, key);
    key
  }

  const FACTOR := 10000

  /** The random rank for the draw k of `uniform_int_distribution(0, factor)`. */
  ghost function RandomRank(rank: map<real, nat>, k: nat): real
    requires rank != map[]
  {
    k as real / FACTOR as real * TopKey(rank)
  }

  /** The source may dereference `rbegin()` and the result of `lower_bound`. */
  ghost predicate Drawable(rank: map<real, nat>) { rank != map[] && TopKey(rank) >= 0.0 }

  lemma ScaleDown(f: real, t: real)
    requires 0.0 <= f <= 1.0 && 0.0 <= t
    ensures 0.0 <= f * t <= t
  {
    assert (1.0 - f) * t >= 0.0;
  }

  lemma RandomRankBounded(rank: map<real, nat>, k: nat)
    requires Drawable(rank) && k <= FACTOR
    ensures 0.0 <= RandomRank(rank, k) <= TopKey(rank)
  {
    var f, t := k as real / FACTOR as real, TopKey(rank);
    assert f * FACTOR as real == k as real;
    assert f < 0.0 ==> f * FACTOR as real < 0.0;
    assert f > 1.0 ==> f * FACTOR as real > FACTOR as real;
    ScaleDown(f, t);
    assert RandomRank(rank, k) == f * t;
  }

  /** The server the draw k selects. */
  ghost function Pick(rank: map<real, nat>, k: nat): (id: nat)
    requires Drawable(rank) && k <= FACTOR
    ensures id in rank.Values
  {
    RandomRankBounded(rank, k);
    var key := LowerBound(rank, RandomRank(rank, k));
    assert key in rank.Keys;
    rank[key]
  }

  // ---------- the intervals ----------

  /** A rank map that names each of these servers once, under positive keys. */
  ghost predicate NamesOnce(rank: map<real, nat>, ids: set<nat>) {
    && rank.Values == ids
    && |rank| == |ids|
    && forall k :: k in rank ==> k > 0.0
  }

  lemma MarksNameAll(w: Weights, ids: seq<nat>, rank: map<real, nat>)
    requires Lists(ids, w) && Positive(w) && rank == RankMap(w, ids, |ids|)
    ensures |rank| == |ids|
    ensures forall k :: k in rank ==> k > 0.0 && rank[k] in ids
    ensures forall id :: id in ids ==> id in rank.Values
  {
    RankMapIsPrefixSums(w, ids, |ids|);
    forall k | k in rank ensures k > 0.0 && rank[k] in ids {
      var i :| 0 <= i < |ids| && k == Mark(w, ids, i);
      PrefixIncreases(w, ids, 0, i + 1);
    }
    forall i | 0 <= i < |ids| ensures ids[i] in rank.Values {
      assert rank[Mark(w, ids, i)] == ids[i];
    }
  }

  /** The rank map built from positive scores names every server exactly once. */
  lemma RanksNameOnce(w: Weights)
    requires Positive(w)
    ensures NamesOnce(Ranks(w), w.Keys)
  {
    var ids := Ascending(w.Keys);
    assert forall i :: 0 <= i < |ids| ==> ids[i] in ids;
    var rank := Ranks(w);
    MarksNameAll(w, ids, rank);
    forall id ensures id in rank.Values <==> id in w.Keys {
      if id in rank.Values {
        if forall k :: k in rank ==> rank[k] != id { assert false; }
      }
      assert id in ids <==> id in w.Keys;
    }
  }

  // ---------- what goes wrong with a zero score ----------

  /** Server j owns the key k of the map after n iterations: no later server reached k. */
  ghost predicate Owns(w: Weights, ids: seq<nat>, n: nat, j: nat, k: real)
    requires Lists(ids, w) && n <= |ids|
  {
    j < n && Mark(w, ids, j) == k && forall l :: j < l < n ==> Mark(w, ids, l) != k
  }

  /** Whatever the scores, an entry names the last server that reached its key. */
  lemma {:induction false} LastWriterOwns(w: Weights, ids: seq<nat>, n: nat, k: real) returns (j: nat)
    requires Lists(ids, w) && n <= |ids| && k in RankMap(w, ids, n)
    ensures Owns(w, ids, n, j, k) && RankMap(w, ids, n)[k] == ids[j]
  {
    if k == Mark(w, ids, n - 1) {
      j := n - 1;
    } else {
      j := LastWriterOwns(w, ids, n - 1, k);
    }
  }

  /** A server whose score adds nothing hides the one before it. */
  lemma ZeroScoreHides(w: Weights, ids: seq<nat>, i: nat)
    requires Lists(ids, w) && Increasing(ids) && 0 < i < |ids| && w[ids[i]] == 0.0
    ensures ids[i - 1] !in RankMap(w, ids, |ids|).Values
  {
    var rank := RankMap(w, ids, |ids|);
    assert Mark(w, ids, i) == Mark(w, ids, i - 1);
    if ids[i - 1] in rank.Values {
      if forall k :: k in rank ==> rank[k] != ids[i - 1] { assert false; }
      var k :| k in rank && rank[k] == ids[i - 1];
      var j := LastWriterOwns(w, ids, |ids|, k);
      assert false;
    }
  }

  lemma {:induction false} LaterMarksLarger(w: Weights, ids: seq<nat>, i: nat, j: nat)
    requires Lists(ids, w) && i < j < |ids|
    requires forall l :: 0 < l < |ids| ==> w[ids[l]] > 0.0
    ensures Mark(w, ids, i) < Mark(w, ids, j)
    decreases j
  {
    assert Mark(w, ids, j) == Mark(w, ids, j - 1) + w[ids[j]];
    if i < j - 1 { LaterMarksLarger(w, ids, i, j - 1); }
  }

  lemma {:induction false} OwnedKeyStays(w: Weights, ids: seq<nat>, n: nat, i: nat)
    requires Lists(ids, w) && i < n <= |ids|
    requires forall l :: 0 < l < |ids| ==> w[ids[l]] > 0.0
    ensures Mark(w, ids, i) in RankMap(w, ids, n) && RankMap(w, ids, n)[Mark(w, ids, i)] == ids[i]
    decreases n
  {
    if i < n - 1 {
      OwnedKeyStays(w, ids, n - 1, i);
      LaterMarksLarger(w, ids, i, n - 1);
    }
    assert RankMap(w, ids, n) == RankMap(w, ids, n - 1)[Mark(w, ids, n - 1) := ids[n - 1]];
  }

  /** Exactly when `Rebalance` leaves every server selectable: with scores that are not
      negative, if and only if no server but the first has score zero. */
  lemma AllNamedIffPositive(w: Weights, ids: seq<nat>)
    requires Lists(ids, w) && Increasing(ids) && forall id :: id in w ==> w[id] >= 0.0
    ensures (forall i :: 0 <= i < |ids| ==> ids[i] in RankMap(w, ids, |ids|).Values)
            <==> (forall i :: 0 < i < |ids| ==> w[ids[i]] > 0.0)
  {
    if forall i :: 0 < i < |ids| ==> w[ids[i]] > 0.0 {
      forall i | 0 <= i < |ids| ensures ids[i] in RankMap(w, ids, |ids|).Values {
        OwnedKeyStays(w, ids, |ids|, i);
      }
    } else {
      var i :| 0 < i < |ids| && w[ids[i]] <= 0.0;
      assert w[ids[i]] >= 0.0;
      ZeroScoreHides(w, ids, i);
    }
  }

  lemma NamesOnceDrawable(rank: map<real, nat>, ids: set<nat>)
    requires NamesOnce(rank, ids) && ids != {}
    ensures Drawable(rank)
  {
    var id :| id in ids;
    assert id in rank.Values;
  }

  /** The interval of ranks that belongs to server i; the first one is open below. */
  ghost predicate InInterval(w: Weights, ids: seq<nat>, i: nat, r: real)
    requires Lists(ids, w) && i < |ids|
  {
    (i == 0 || Mark(w, ids, i - 1) < r) && r <= Mark(w, ids, i)
  }

  lemma IntervalsDisjoint(w: Weights, ids: seq<nat>, i: nat, j: nat, r: real)
    requires Lists(ids, w) && Positive(w) && i < |ids| && j < |ids|
    requires InInterval(w, ids, i, r) && InInterval(w, ids, j, r)
    ensures i == j
  {
    if i < j { MarksIncrease(w, ids, i, j - 1); }
    if j < i { MarksIncrease(w, ids, j, i - 1); }
  }

  lemma MarksIncrease(w: Weights, ids: seq<nat>, i: nat, j: nat)
    requires Lists(ids, w) && Positive(w) && i <= j < |ids|
    ensures Mark(w, ids, i) <= Mark(w, ids, j)
    ensures i < j ==> Mark(w, ids, i) < Mark(w, ids, j)
  {
    if i < j { PrefixIncreases(w, ids, i + 1, j + 1); }
  }

  lemma FoundIndex(w: Weights, ids: seq<nat>, rank: map<real, nat>, r: real) returns (j: nat)
    requires Lists(ids, w) && Positive(w) && ids != [] && rank == RankMap(w, ids, |ids|)
    requires r <= Mark(w, ids, |ids| - 1)
    ensures exists k :: k in rank && r <= k
    ensures j < |ids| && InInterval(w, ids, j, r) && rank[LowerBound(rank, r)] == ids[j]
  {
    RankMapIsPrefixSums(w, ids, |ids|);
    assert Mark(w, ids, |ids| - 1) in rank;
    var key := LowerBound(rank, r);
    assert key in rank && r <= key;
    j :| 0 <= j < |ids| && key == Mark(w, ids, j);
    if 0 < j {
      assert Mark(w, ids, j - 1) in rank;
      MarksIncrease(w, ids, j - 1, j);
    }
  }

  /** `lower_bound(r)` finds server i exactly when r lies in the interval between the sums
      before and through i; the first server also takes everything from below. The
      intervals are disjoint, have the scores as lengths and fill (0, total]. */
  lemma SelectsInterval(w: Weights, ids: seq<nat>, r: real, i: nat)
    requires Lists(ids, w) && Positive(w) && Increasing(ids) && i < |ids|
    requires r <= Mark(w, ids, |ids| - 1)
    ensures var rank := RankMap(w, ids, |ids|);
            && (exists k :: k in rank && r <= k)
            && (rank[LowerBound(rank, r)] == ids[i] <==> InInterval(w, ids, i, r))
    ensures Mark(w, ids, i) - Prefix(w, ids, i) == w[ids[i]]
  {
    var rank := RankMap(w, ids, |ids|);
    var j := FoundIndex(w, ids, rank, r);
    if InInterval(w, ids, i, r) { IntervalsDisjoint(w, ids, i, j, r); }
  }
}
