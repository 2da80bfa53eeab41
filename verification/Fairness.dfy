/** Which scores a weighted dispatch goes by, in every reachable state. */
module Fairness {
  import opened OrderedKeys
  import opened LoadBalance
  import opened Scheduler
  import opened Sampling
  import opened PushSystem
  import opened PushTheorems
  import FlowControl
  import Conservation

  /** The sections that call `Rebalance`: the timer, a registration, a failure that breaks the
      circuit, and a sweep that removes somebody. */
  ghost predicate Reranks(s: System, e: Event) {
    || e.Timer? || e.Register?
    || (e.Charge? && e.call in s.calls && Breaks(s.daemon, s.calls[e.call].svrId))
    || (e.Sweep? && Live(s.daemon, e.now) != s.daemon.svrInfo.Keys)
  }

  predicate Breaks(d: State, id: nat) { id in d.producers && d.producers[id].failCount == FAIL_COUNT_LIMIT }

  ghost predicate Ranked(d: State) { d.rank == Ranks(Scores(d.svrInfo)) }

  /** A sweep has either changed nothing so far, or removed somebody and ranked the rest. */
  ghost predicate SweptRanked(s: State, t: State) {
    t == s || (t.svrInfo.Keys < s.svrInfo.Keys && Ranked(t))
  }

  lemma {:induction false} SweepRanks(s: State, ids: seq<nat>, n: nat, now: int)
    requires Coherent(s) && n <= |ids|
    ensures SweptRanked(s, SweepFirst(s, ids, n, now))
  {
    hide Ranks, Coherent;
    if n > 0 {
      SweepRanks(s, ids, n - 1, now);
      SweepFirstKeeps(s, ids, n - 1, now);
      SweepOneRanks(SweepFirst(s, ids, n - 1, now), ids[n - 1], now);
    }
  }

  lemma SweepOneRanks(t: State, id: nat, now: int)
    requires Coherent(t)
    ensures SweptRanked(t, SweepOne(t, id, now))
  {
    hide Ranks, NamesOnce;
    if id in t.svrInfo && !Alive(t.svrInfo[id], now) {
      assert id !in Dropped(t, id).svrInfo;
    }
  }

  lemma SweepRankStep(d: State, now: int)
    requires Coherent(d)
    ensures if Live(d, now) != d.svrInfo.Keys then Ranked(Swept(d, now)) else Swept(d, now).rank == d.rank
  {
    hide Ranks, NamesOnce, Consistent, SweepFirst;
    var ids := Ascending(d.svrInfo.Keys);
    SweepRanks(d, ids, |ids|, now);
    SweepIsRestriction(d, now);
    var u := SweepFirst(d, ids, |ids|, now);
    assert Swept(d, now) == FailsCleared(u);
    assert u.svrInfo.Keys == Live(d, now);
  }

  lemma ChargeRankStep(d: State, id: nat)
    requires Coherent(d)
    ensures if Breaks(d, id) then Ranked(Failed(d, id)) else Failed(d, id).rank == d.rank
  {
    hide Ranks, NamesOnce;
  }

  lemma RankStep(s: System, e: Event)
    requires Inv(s) && Enabled(s, e)
    ensures var d, d' := s.daemon, Step(s, e).daemon;
            if Reranks(s, e) then Ranked(d') else d'.rank == d.rank
  {
    hide Ranks, Swept, Failed, Consistent, NamesOnce, NewId, FlowControl.InvFlow, FlowControl.InvAccount,
         Conservation.InvPlaces, Choose;
    match e
    case Sweep(now) => SweepRankStep(s.daemon, now);
    case Charge(call) => ChargeRankStep(s.daemon, s.calls[call].svrId);
    case _ =>
  }

  /** State m is the one after the latest rebalance before state n, or the initial one. */
  ghost predicate RankedAt(r: Run, m: nat, n: nat)
    requires IsRun(r) && m <= n <= |r.events|
  {
    && (m == 0 || Reranks(r.states[m - 1], r.events[m - 1]))
    && forall i :: m <= i < n ==> !Reranks(r.states[i], r.events[i])
  }

  lemma EmptyRanks()
    ensures Ranks(Scores(map[])) == map[]
  {
    assert Scores(map[]) == map[];
  }

  /** In every reachable state the rank map is that of the scores at the latest rebalance,
      and the servers it was made for are those registered now. */
  lemma {:induction false} RankIsLatest(r: Run, n: nat) returns (m: nat)
    requires IsRun(r) && n <= |r.events|
    ensures m <= n && RankedAt(r, m, n)
    ensures r.states[n].daemon.rank == Ranks(Scores(r.states[m].daemon.svrInfo))
    ensures r.states[m].daemon.svrInfo.Keys == r.states[n].daemon.svrInfo.Keys
  {
    hide Inv, Step, Enabled, Ranks, Reranks;
    if n == 0 {
      m := 0;
      EmptyRanks();
    } else {
      EnterState(r, n);
      RankStep(r.states[n - 1], r.events[n - 1]);
      if Reranks(r.states[n - 1], r.events[n - 1]) {
        m := n;
      } else {
        m := RankIsLatest(r, n - 1);
        SameServers(r, m, n);
      }
    }
  }

  lemma SameServers(r: Run, m: nat, n: nat)
    requires IsRun(r) && m <= n <= |r.events|
    requires r.states[n].daemon.rank == Ranks(Scores(r.states[m].daemon.svrInfo))
    ensures r.states[m].daemon.svrInfo.Keys == r.states[n].daemon.svrInfo.Keys
  {
    hide Ranks, NamesOnce, Next;
    InvHolds(r, m);
    InvHolds(r, n);
    var d, d' := r.states[m].daemon, r.states[n].daemon;
    RebalanceRanks(d);
    assert NamesOnce(d'.rank, d.svrInfo.Keys) && NamesOnce(d'.rank, d'.svrInfo.Keys);
    NamesWhom(d'.rank, d.svrInfo.Keys, d'.svrInfo.Keys);
  }

  lemma NamesWhom(rank: map<real, nat>, a: set<nat>, b: set<nat>)
    requires NamesOnce(rank, a) && NamesOnce(rank, b)
    ensures a == b
  {
  }

  /** The draws for which a pass sends to this server. */
  ghost function DispatchDraws(d: State, id: nat): set<nat>
    requires Choosable(d)
  {
    set k: nat | k <= FACTOR && Choose(d, k) == Send(id)
  }

  /** Every weighted dispatch of every run is fair by the scores of the latest rebalance: the
      servers to choose from are those registered, and of the 10001 draws each gets its share
      of 10000 to within 1, the first one a surplus in (0, 1]. */
  lemma DispatchIsFair(r: Run, n: nat, ids: seq<nat>, i: nat) returns (m: nat)
    requires IsRun(r) && n <= |r.events| && r.states[n].daemon.idle == {} && HasRoom(r.states[n].daemon)
    requires ids == Ascending(r.states[n].daemon.svrInfo.Keys) && i < |ids|
    ensures m <= n && RankedAt(r, m, n) && Choosable(r.states[n].daemon)
    ensures r.states[m].daemon.svrInfo.Keys == r.states[n].daemon.svrInfo.Keys
    ensures var w := Scores(r.states[m].daemon.svrInfo);
            && Table(w, ids) && Total(w, ids) > 0.0
            && var draws := DispatchDraws(r.states[n].daemon, ids[i]);
               var surplus := |draws| as real - 10000.0 * w[ids[i]] / Total(w, ids);
               if i == 0 then 0.0 < surplus <= 1.0 else -1.0 < surplus < 1.0
  {
    hide Ranks, Ascending, NamesOnce, RankMap, Prefix, Mark, Inv, Next, Pick, RankedAt;
    m := RankIsLatest(r, n);
    CoherentState(r, n);
    CoherentState(r, m);
    var d, s := r.states[n].daemon, r.states[m].daemon;
    ChoiceIsLive(d, 0);
    FairAfterRebalance(s, ids, i);
    SameDraws(d, Scores(s.svrInfo), ids, i);
  }

  lemma CoherentState(r: Run, n: nat)
    requires IsRun(r) && n <= |r.events|
    ensures Coherent(r.states[n].daemon)
  {
    hide Coherent, Next, FlowControl.InvFlow, FlowControl.InvAccount, Conservation.InvPlaces;
    InvHolds(r, n);
  }

  lemma SameDraws(d: State, w: Weights, ids: seq<nat>, i: nat)
    requires Choosable(d) && d.idle == {} && HasRoom(d)
    requires Table(w, ids) && i < |ids| && d.rank == RankMap(w, ids, |ids|) && Drawable(d.rank)
    ensures DispatchDraws(d, ids[i]) == Draws(w, ids, i)
  {
    hide Table, RankMap, Drawable, Pick;
  }
}
