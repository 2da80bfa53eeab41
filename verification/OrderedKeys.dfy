/** Iteration order of the ordered containers the daemon uses: std::map and std::set
    keyed by server id are visited in ascending key order. */
module OrderedKeys {

  predicate AtMost(m: nat, s: set<nat>) { forall x :: x in s ==> x <= m }

  predicate AtLeast(m: nat, s: set<nat>) { forall x :: x in s ==> m <= x }

  lemma ExtremesExist(s: set<nat>) returns (lo: nat, hi: nat)
    requires s != {}
    ensures lo in s && AtLeast(lo, s)
    ensures hi in s && AtMost(hi, s)
  {
    var y :| y in s;
    var rest := s - {y};
    if rest == {} {
      lo, hi := y, y;
      assert forall x :: x in s ==> x == y || x in rest;
    } else {
      lo, hi := ExtremesExist(rest);
      assert forall x :: x in s ==> x == y || x in rest;
      hi, lo := if y > hi then y else hi, if y < lo then y else lo;
    }
  }

  ghost function Max(s: set<nat>): (m: nat)
    requires s != {}
    ensures m in s && AtMost(m, s)
  {
    assert exists m :: m in s && AtMost(m, s) by { var lo, hi := ExtremesExist(s); }
    var m :| m in s && AtMost(m, s);
    m
  }

  ghost function Min(s: set<nat>): (m: nat)
    requires s != {}
    ensures m in s && AtLeast(m, s)
  {
    assert exists m :: m in s && AtLeast(m, s) by { var lo, hi := ExtremesExist(s); }
    var m :| m in s && AtLeast(m, s);
    m
  }

  ghost predicate Increasing(ids: seq<nat>) {
    forall i, j :: 0 <= i < j < |ids| ==> ids[i] < ids[j]
  }

  /** The keys in the order an iterator visits them. */
  ghost function Ascending(s: set<nat>): (ids: seq<nat>)
    ensures |ids| == |s|
    ensures Increasing(ids)
    ensures forall x :: x in ids <==> x in s
  {
    if s == {} then []
    else
      var m := Max(s);
      Ascending(s - {m}) + [m]
  }

  /** The largest key of a strictly increasing sequence is its last element. */
  lemma LastIsMax(s: set<nat>, ids: seq<nat>)
    requires Increasing(ids) && ids != [] && s != {}
    requires forall x :: x in ids <==> x in s
    ensures ids[|ids| - 1] == Max(s)
  {
    assert ids[|ids| - 1] in ids;
    assert Max(s) in ids;
  }

  /** What `rbegin()` yields on an ordered container. */
  lemma LastAscending(s: set<nat>)
    requires s != {}
    ensures Ascending(s) != [] && Ascending(s)[|Ascending(s)| - 1] == Max(s)
  {
  }

  /** A strictly increasing sequence is determined by its elements. */
  lemma {:induction false} AscendingUnique(s: set<nat>, ids: seq<nat>)
    requires Increasing(ids)
    requires forall x :: x in ids <==> x in s
    ensures ids == Ascending(s)
    decreases s
  {
    if ids == [] {
      assert s == {} by { assert forall x :: x in s ==> x in ids; }
    } else {
      assert ids[0] in ids;
      var m := Max(s);
      assert m in ids;
      LastIsMax(s, ids);
      var front := ids[..|ids| - 1];
      assert ids == front + [m];
      forall x ensures x in front <==> x in s - {m} {
        assert x in ids <==> x in front || x == m;
      }
      AscendingUnique(s - {m}, front);
    }
  }

  /** An executable walk over the keys, as `for (auto p = m.begin(); ...)` performs it. */
  method KeysInOrder(s: set<nat>) returns (ids: seq<nat>)
    ensures ids == Ascending(s)
  {
    var rest := s;
    ids := [];
    while rest != {}
      invariant rest <= s
      invariant forall x :: x in ids <==> x in s - rest
      invariant Increasing(ids)
      invariant forall x, y :: x in ids && y in rest ==> x < y
      decreases rest
    {
      ghost var least := Min(rest);
      assert least in rest && AtLeast(least, rest);
      var m :| m in rest && AtLeast(m, rest);
      assert AtLeast(m, rest);
      forall i | 0 <= i < |ids| ensures ids[i] < m { assert ids[i] in ids; }
      ids := ids + [m];
      rest := rest - {m};
    }
    AscendingUnique(s, ids);
  }

  /** A new largest key is visited last, right after the old largest one. */
  lemma AscendingAppend(s: set<nat>, k: nat)
    requires s != {} && AtMost(Max(s), s) && Max(s) < k
    ensures Ascending(s + {k}) == Ascending(s) + [k]
    ensures Ascending(s) != [] && Ascending(s)[|s| - 1] == Max(s)
  {
    var t := s + {k};
    assert k in t;
    assert AtMost(k, t);
    assert Max(t) == k;
    assert t - {k} == s;
    LastIsMax(s, Ascending(s));
  }

  lemma SubsetSize(a: set<nat>, b: set<nat>)
    requires a <= b
    ensures |a| <= |b|
  {
    assert b == a + (b - a);
  }
}
