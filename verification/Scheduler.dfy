/** The daemon's shared state, and what each of its critical sections does to it. */
module Scheduler {
  import opened Words
  import opened OrderedKeys
  import opened LoadBalance

  const FAIL_COUNT_LIMIT := 50
  const ALIVE_DURATION := 10
  const INT_MAX := 0x7fff_ffff
  const PRODUCER := "producer"

  datatype ServerInfo = ServerInfo(procName: string, timestamp: int, score: real)

  datatype ProducerState = ProducerState(curTaskCount: nat, failCount: nat)

  /** Everything `gSvrInfoMutex` guards. */
  datatype State = State(
    svrInfo: map<nat, ServerInfo>,
    producers: map<nat, ProducerState>,
    idle: set<nat>,
    rank: map<real, nat>,
    sendingCount: nat)

  const EMPTY := State(map[], map[], {}, map[], 0)

  function Scores(svrInfo: map<nat, ServerInfo>): Weights {
    map id | id in svrInfo :: svrInfo[id].score
  }

  /** `gSvrId2ProducerState[id]` inserts a default entry for an unknown id. */
  function Fetch(producers: map<nat, ProducerState>, id: nat): ProducerState {
    if id in producers then producers[id] else ProducerState(0, 0)
  }

  function WithDefaults(producers: map<nat, ProducerState>, ids: set<nat>): map<nat, ProducerState> {
    map id | id in producers.Keys + ids :: Fetch(producers, id)
  }

  ghost function Rebalanced(s: State): State {
    s.(rank := Ranks(Scores(s.svrInfo)), producers := WithDefaults(s.producers, s.svrInfo.Keys))
  }

  // ---------- registration, scores, heartbeats ----------

  ghost function NewId(s: State, random: nat): nat {
    if s.svrInfo == map[] then random else (Max(s.svrInfo.Keys) + 1) % U64
  }

  /** `std::map::insert` leaves an existing entry alone. */
  function Inserted(svrInfo: map<nat, ServerInfo>, id: nat, info: ServerInfo): map<nat, ServerInfo> {
    if id in svrInfo then svrInfo else svrInfo[id := info]
  }

  ghost function Registered(s: State, random: nat, procName: string, now: int): State {
    var id := NewId(s, random);
    var infos := Inserted(s.svrInfo, id, ServerInfo(procName, now, 0.0));
    if procName == PRODUCER then
      Rebalanced(s.(
        svrInfo := infos[id := infos[id].(score := CalLoadBalanceScore(0.0))],
        producers := s.producers[id := ProducerState(0, 0)],
        idle := s.idle + {id}))
    else
      s.(svrInfo := infos)
  }

  function Scored(s: State, id: nat, score: real): State {
    if id in s.svrInfo then s.(svrInfo := s.svrInfo[id := s.svrInfo[id].(score := score)]) else s
  }

  function Beaten(s: State, id: nat, now: int): State {
    if id in s.svrInfo then s.(svrInfo := s.svrInfo[id := s.svrInfo[id].(timestamp := now)]) else s
  }

  // ---------- dispatch ----------

  datatype Choice = Send(svrId: nat) | Wait

  predicate HasRoom(s: State) {
    var producerSize := |s.producers| % U32;
    s.sendingCount <= 3 * producerSize % U32 && producerSize != 0
  }

  /** What the weighted branch needs for its two map iterators to be dereferenceable. */
  ghost predicate Choosable(s: State) { s.idle == {} && HasRoom(s) ==> Drawable(s.rank) }

  ghost function Choose(s: State, draw: nat): Choice
    requires Choosable(s) && draw <= FACTOR
  {
    if s.idle != {} then Send(Min(s.idle))
    else if HasRoom(s) then Send(Pick(s.rank, draw))
    else Wait
  }

  /** A pass of `SelectProducerAndSend` would wait, whatever it draws. */
  predicate Waits(s: State) { s.idle == {} && !HasRoom(s) }

  lemma WaitsIffChoice(s: State, draw: nat)
    requires Choosable(s) && draw <= FACTOR
    ensures Waits(s) <==> Choose(s, draw) == Wait
  {
  }

  function Dispatched(s: State, id: nat): State {
    var p := Fetch(s.producers, id);
    s.(idle := s.idle - {id},
       sendingCount := (s.sendingCount + 1) % U32,
       producers := s.producers[id := p.(curTaskCount := (p.curTaskCount + 1) % U32)])
  }

  // ---------- replies and failures ----------

  function Decreased(s: State, id: nat): State {
    var s1 := s.(sendingCount := (s.sendingCount + U32 - 1) % U32);
    if id in s.producers then
      var left := (s.producers[id].curTaskCount + U32 - 1) % U32;
      s1.(producers := s.producers[id := s.producers[id].(curTaskCount := left)],
          idle := if left == 0 then s.idle + {id} else s.idle)
    else s1
  }

  function Dropped(s: State, id: nat): State {
    s.(idle := s.idle - {id}, producers := s.producers - {id}, svrInfo := s.svrInfo - {id})
  }

  /** First lock section of `OnResponseFail`: count the failure, break the circuit. */
  ghost function Failed(s: State, id: nat): State {
    if id !in s.producers then s
    else
      var count := (s.producers[id].failCount + 1) % U32;
      if count > FAIL_COUNT_LIMIT then Rebalanced(Dropped(s, id))
      else s.(producers := s.producers[id := s.producers[id].(failCount := count)])
  }

  // ---------- liveness sweep ----------

  predicate Alive(info: ServerInfo, now: int) { now - info.timestamp <= ALIVE_DURATION }

  /** One iteration of the erasing loop. */
  ghost function SweepOne(s: State, id: nat, now: int): State {
    if id !in s.svrInfo || Alive(s.svrInfo[id], now) then s
    else if s.svrInfo[id].procName == PRODUCER then Rebalanced(Dropped(s, id))
    else s.(svrInfo := s.svrInfo - {id})
  }

  ghost function SweepFirst(s: State, ids: seq<nat>, n: nat, now: int): State
    requires n <= |ids|
  {
    if n == 0 then s else SweepOne(SweepFirst(s, ids, n - 1, now), ids[n - 1], now)
  }

  function FailsCleared(s: State): State {
    s.(producers := map id | id in s.producers :: s.producers[id].(failCount := 0))
  }

  ghost function Swept(s: State, now: int): State {
    var ids := Ascending(s.svrInfo.Keys);
    FailsCleared(SweepFirst(s, ids, |ids|, now))
  }

  // ---------- coherence ----------

  ghost predicate ProducersOnly(s: State) {
    forall id :: id in s.svrInfo ==> s.svrInfo[id].procName == PRODUCER && s.svrInfo[id].score > 0.0
  }

  /** Coherent but for the rank map. */
  ghost predicate Consistent(s: State) {
    && ProducersOnly(s)
    && s.producers.Keys == s.svrInfo.Keys
    && s.idle <= s.svrInfo.Keys
    && forall id :: id in s.producers ==> s.producers[id].failCount <= FAIL_COUNT_LIMIT
  }

  /** The four containers agree on who is alive. */
  ghost predicate Coherent(s: State) {
    Consistent(s) && NamesOnce(s.rank, s.svrInfo.Keys)
  }

  /** Rebalancing positive scores makes the rank map name exactly the live servers. */
  lemma RebalanceRanks(s: State)
    requires ProducersOnly(s) && s.svrInfo.Keys <= s.producers.Keys
    ensures Rebalanced(s).producers == s.producers
    ensures NamesOnce(Rebalanced(s).rank, s.svrInfo.Keys)
  {
    assert WithDefaults(s.producers, s.svrInfo.Keys) == s.producers;
    assert Scores(s.svrInfo).Keys == s.svrInfo.Keys;
    RanksNameOnce(Scores(s.svrInfo));
  }

  lemma RebalanceCoherent(s: State)
    requires Consistent(s)
    ensures Coherent(Rebalanced(s)) && Rebalanced(s) == s.(rank := Rebalanced(s).rank)
  {
    RebalanceRanks(s);
    assert Rebalanced(s) == s.(rank := Rebalanced(s).rank);
  }

  /** A dispatch is never stuck on an empty rank map, and whatever it chooses is a live
      producer: the idle one with the smallest id if any is idle. It waits only when nobody is
      idle and either there is no producer or sendingCount is above three per producer. */
  lemma ChoiceIsLive(s: State, draw: nat)
    requires Coherent(s) && draw <= FACTOR
    ensures Choosable(s)
    ensures Choose(s, draw).Send? ==> Choose(s, draw).svrId in s.producers
    ensures s.idle != {} ==>
              Choose(s, draw).Send? && Choose(s, draw).svrId in s.idle && AtLeast(Choose(s, draw).svrId, s.idle)
    ensures 3 * |s.producers| < U32 ==>
              (Choose(s, draw).Wait? <==> s.idle == {} && (s.producers == map[] || s.sendingCount > 3 * |s.producers|))
  {
    if s.idle == {} && HasRoom(s) {
      assert |s.producers| == |s.producers.Keys| == |s.svrInfo.Keys|;
      NamesOnceDrawable(s.rank, s.svrInfo.Keys);
    }
  }

  lemma NewIdIsNew(s: State, random: nat)
    requires s.svrInfo != map[] ==> Max(s.svrInfo.Keys) + 1 < U64
    ensures NewId(s, random) !in s.svrInfo
    ensures if s.svrInfo == map[] then NewId(s, random) == random
            else NewId(s, random) - 1 in s.svrInfo && AtMost(NewId(s, random) - 1, s.svrInfo.Keys)
  {
    if s.svrInfo != map[] { assert NewId(s, random) !in s.svrInfo.Keys; }
  }

  /** The state handed to `Rebalance` when a producer registers under a new id. */
  function Enrolled(s: State, id: nat, now: int): State {
    s.(svrInfo := s.svrInfo[id := ServerInfo(PRODUCER, now, CalLoadBalanceScore(0.0))],
       producers := s.producers[id := ProducerState(0, 0)],
       idle := s.idle + {id})
  }

  lemma RegisteredIsEnrolled(s: State, random: nat, now: int)
    requires NewId(s, random) !in s.svrInfo
    ensures Registered(s, random, PRODUCER, now) == Rebalanced(Enrolled(s, NewId(s, random), now))
  {
    var id := NewId(s, random);
    var infos := Inserted(s.svrInfo, id, ServerInfo(PRODUCER, now, 0.0));
    assert infos[id := infos[id].(score := CalLoadBalanceScore(0.0))] == Enrolled(s, id, now).svrInfo;
  }

  lemma EnrolledConsistent(s: State, id: nat, now: int)
    requires Consistent(s)
    ensures Consistent(Enrolled(s, id, now))
  {
    var t := Enrolled(s, id, now);
    assert CalLoadBalanceScore(0.0) == 10.0;
    assert t.svrInfo.Keys == s.svrInfo.Keys + {id} == t.producers.Keys;
  }

  lemma EnrolledInfo(d: State, id: nat, now: int)
    ensures Rebalanced(Enrolled(d, id, now)).svrInfo == d.svrInfo[id := ServerInfo(PRODUCER, now, 10.0)]
  {
    hide Ranks;
    assert CalLoadBalanceScore(0.0) == 10.0;
  }

  lemma RegisterCoherent(s: State, random: nat, now: int)
    requires Coherent(s)
    requires s.svrInfo != map[] ==> Max(s.svrInfo.Keys) + 1 < U64
    ensures var id, s' := NewId(s, random), Registered(s, random, PRODUCER, now);
            && Coherent(s')
            && id !in s.svrInfo
            && (if s.svrInfo == map[] then id == random else id - 1 in s.svrInfo && AtMost(id - 1, s.svrInfo.Keys))
            && s'.svrInfo == s.svrInfo[id := ServerInfo(PRODUCER, now, 10.0)]
            && s'.producers == s.producers[id := ProducerState(0, 0)]
            && s'.idle == s.idle + {id}
            && s'.sendingCount == s.sendingCount
  {
    hide Rebalanced, NewId, NamesOnce, AtMost;
    NewIdIsNew(s, random);
    RegisteredIsEnrolled(s, random, now);
    EnrolledInfo(s, NewId(s, random), now);
    EnrolledConsistent(s, NewId(s, random), now);
    RebalanceCoherent(Enrolled(s, NewId(s, random), now));
  }

  lemma ScoreCoherent(s: State, id: nat, score: real)
    requires Coherent(s) && score > 0.0
    ensures Coherent(Scored(s, id, score))
    ensures Scored(s, id, score).producers == s.producers && Scored(s, id, score).svrInfo.Keys == s.svrInfo.Keys
  {
    assert Scored(s, id, score).svrInfo.Keys == s.svrInfo.Keys;
  }

  lemma BeatCoherent(s: State, id: nat, now: int)
    requires Coherent(s)
    ensures Coherent(Beaten(s, id, now)) && Beaten(s, id, now).svrInfo.Keys == s.svrInfo.Keys
  {
    assert Beaten(s, id, now).svrInfo.Keys == s.svrInfo.Keys;
  }

  lemma DispatchCoherent(s: State, id: nat)
    requires Coherent(s) && id in s.producers
    ensures Coherent(Dispatched(s, id)) && Dispatched(s, id).producers.Keys == s.producers.Keys
  {
    assert Dispatched(s, id).producers.Keys == s.producers.Keys;
  }

  lemma DecreaseCoherent(s: State, id: nat)
    requires Coherent(s)
    ensures Coherent(Decreased(s, id)) && Decreased(s, id).producers.Keys == s.producers.Keys
  {
    assert Decreased(s, id).producers.Keys == s.producers.Keys;
  }

  lemma DropCoherent(s: State, id: nat)
    requires Consistent(s)
    ensures var s' := Rebalanced(Dropped(s, id));
            Coherent(s') && s' == Dropped(s, id).(rank := s'.rank)
  {
    assert Consistent(Dropped(s, id));
    RebalanceCoherent(Dropped(s, id));
  }

  lemma CountFailCoherent(s: State, id: nat)
    requires Coherent(s) && id in s.producers && s.producers[id].failCount < FAIL_COUNT_LIMIT
    ensures Coherent(Failed(s, id))
    ensures Failed(s, id) ==
            s.(producers := s.producers[id := s.producers[id].(failCount := s.producers[id].failCount + 1)])
  {
    hide Rebalanced, NamesOnce;
    assert Failed(s, id).producers.Keys == s.producers.Keys;
  }

  lemma BreakCoherent(s: State, id: nat)
    requires Coherent(s) && id in s.producers && s.producers[id].failCount == FAIL_COUNT_LIMIT
    ensures Coherent(Failed(s, id))
    ensures Failed(s, id) == Dropped(s, id).(rank := Failed(s, id).rank)
  {
    DropCoherent(s, id);
    assert Failed(s, id) == Rebalanced(Dropped(s, id));
  }

  function Live(s: State, now: int): set<nat> {
    set id | id in s.svrInfo && Alive(s.svrInfo[id], now)
  }

  function Restricted<V>(m: map<nat, V>, ids: set<nat>): map<nat, V> { map id | id in m && id in ids :: m[id] }

  /** What a sweep that has visited `seen` has left. */
  ghost predicate SweptTo(s: State, t: State, seen: seq<nat>, now: int) {
    var keep := set id | id in s.svrInfo && (Alive(s.svrInfo[id], now) || id !in seen);
    && t.svrInfo == Restricted(s.svrInfo, keep)
    && t.producers == Restricted(s.producers, keep)
    && t.idle == s.idle * keep
    && t.sendingCount == s.sendingCount
  }

  lemma SweepOneCoherent(t: State, id: nat, now: int)
    requires Coherent(t)
    ensures Coherent(SweepOne(t, id, now))
    ensures var u := SweepOne(t, id, now);
            u == if id in t.svrInfo && !Alive(t.svrInfo[id], now) then Dropped(t, id).(rank := u.rank) else t
  {
    if id in t.svrInfo && !Alive(t.svrInfo[id], now) { DropCoherent(t, id); }
  }

  lemma SweptToSnoc(s: State, t: State, u: State, seen: seq<nat>, id: nat, now: int)
    requires s.producers.Keys == s.svrInfo.Keys && s.idle <= s.svrInfo.Keys
    requires SweptTo(s, t, seen, now)
    requires u == if id in t.svrInfo && !Alive(t.svrInfo[id], now) then Dropped(t, id).(rank := u.rank) else t
    ensures SweptTo(s, u, seen + [id], now)
  {
    var keep := set id' | id' in s.svrInfo && (Alive(s.svrInfo[id'], now) || id' !in seen + [id]);
    assert u.svrInfo == Restricted(s.svrInfo, keep);
    assert u.producers == Restricted(s.producers, keep);
    assert u.idle == s.idle * keep;
  }

  lemma {:induction false} SweepFirstKeeps(s: State, ids: seq<nat>, n: nat, now: int)
    requires Coherent(s) && n <= |ids|
    ensures Coherent(SweepFirst(s, ids, n, now)) && SweptTo(s, SweepFirst(s, ids, n, now), ids[..n], now)
  {
    if n == 0 {
      var keep := set id | id in s.svrInfo && (Alive(s.svrInfo[id], now) || id !in ids[..0]);
      assert keep == s.svrInfo.Keys;
    } else {
      SweepFirstKeeps(s, ids, n - 1, now);
      var t := SweepFirst(s, ids, n - 1, now);
      SweepOneCoherent(t, ids[n - 1], now);
      SweptToSnoc(s, t, SweepOne(t, ids[n - 1], now), ids[..n - 1], ids[n - 1], now);
      assert ids[..n] == ids[..n - 1] + [ids[n - 1]];
    }
  }

  lemma ClearCoherent(s: State)
    requires Coherent(s)
    ensures Coherent(FailsCleared(s)) && FailsCleared(s).producers.Keys == s.producers.Keys
  {
    assert FailsCleared(s).producers.Keys == s.producers.Keys;
  }

  /** What `live` being the survivors of s means for the state t after the sweep. */
  ghost predicate SweptDown(s: State, t: State, live: set<nat>)
    requires live <= s.producers.Keys
  {
    && t.svrInfo == Restricted(s.svrInfo, live)
    && t.svrInfo.Keys == t.producers.Keys == t.rank.Values == live
    && (forall id :: id in live ==> t.producers[id] == ProducerState(s.producers[id].curTaskCount, 0))
    && t.idle == s.idle * live
    && t.sendingCount == s.sendingCount
  }

  lemma ClearSwept(s: State, u: State, ids: seq<nat>, now: int)
    requires Consistent(s) && Coherent(u) && SweptTo(s, u, ids, now)
    requires forall id :: id in ids <==> id in s.svrInfo.Keys
    ensures SweptDown(s, FailsCleared(u), Live(s, now))
  {
    var keep := set id | id in s.svrInfo && (Alive(s.svrInfo[id], now) || id !in ids);
    assert keep == Live(s, now);
  }

  /** After a sweep the registry is exactly the old entries that are still alive, the other
      containers are restricted to match, and every failure count is zero. */
  lemma SweepIsRestriction(s: State, now: int)
    requires Coherent(s)
    ensures Coherent(Swept(s, now)) && SweptDown(s, Swept(s, now), Live(s, now))
  {
    hide Consistent, NamesOnce, SweptTo, SweptDown, SweepFirst;
    var ids := Ascending(s.svrInfo.Keys);
    var u := SweepFirst(s, ids, |ids|, now);
    SweepFirstKeeps(s, ids, |ids|, now);
    assert ids[..|ids|] == ids;
    ClearSwept(s, u, ids, now);
    ClearCoherent(u);
    assert Swept(s, now) == FailsCleared(u);
  }

  // ---------- why only producers may register ----------

  lemma ZeroLastInOrder(w: Weights, ids: seq<nat>, v: Weights, id: nat, k: real)
    requires Lists(ids, w) && Lists(ids + [id], v) && Increasing(ids + [id]) && Increasing(ids) && ids != []
    requires Positive(w) && id in v && v[id] == 0.0 && SameScores(w, v)
    requires k in RankMap(w, ids, |ids|) && RankMap(w, ids, |ids|)[k] == ids[|ids| - 1]
    ensures var rank := RankMap(v, ids + [id], |ids| + 1);
            ids[|ids| - 1] !in rank.Values && k in rank && rank[k] == id
  {
    hide RankMap, Prefix, Mark, Positive, Increasing;
    var more, n := ids + [id], |ids|;
    ZeroScoreHides(v, more, n);
    LastMark(w, ids, k);
    SamePrefix(w, ids, v, more, n);
    ZeroTakesOver(v, more, n);
  }

  ghost predicate SameScores(w: Weights, v: Weights) { forall x :: x in w ==> x in v && v[x] == w[x] }

  /** A last server with score zero is entered at the key of the one before it. */
  lemma ZeroScoreLast(w: Weights, v: Weights, id: nat, k: real)
    requires w.Keys != {} && Max(w.Keys) < id && v.Keys == w.Keys + {id} && v[id] == 0.0 && SameScores(w, v)
    requires k in Ranks(w) && Ranks(w)[k] == Max(w.Keys) && Positive(w)
    ensures Max(w.Keys) !in Ranks(v).Values
    ensures k in Ranks(v) && Ranks(v)[k] == id
  {
    hide Ranks, RankMap, Prefix, Mark, Positive, SameScores;
    var ids, more := Ascending(w.Keys), Ascending(v.Keys);
    LastInOrder(w.Keys, id, ids, more);
    RanksOf(w, ids);
    RanksOf(v, more);
    ZeroLastInOrder(w, ids, v, id, k);
  }

  lemma LastInOrder(keys: set<nat>, id: nat, ids: seq<nat>, more: seq<nat>)
    requires keys != {} && Max(keys) < id && ids == Ascending(keys) && more == Ascending(keys + {id})
    ensures more == ids + [id] && ids != [] && ids[|ids| - 1] == Max(keys)
  {
    AscendingAppend(keys, id);
  }

  lemma LastMark(w: Weights, ids: seq<nat>, k: real)
    requires Lists(ids, w) && Increasing(ids) && Positive(w) && ids != []
    requires k in RankMap(w, ids, |ids|) && RankMap(w, ids, |ids|)[k] == ids[|ids| - 1]
    ensures k == Prefix(w, ids, |ids|)
  {
    hide Prefix, RankMap;
    RankMapIsPrefixSums(w, ids, |ids|);
    var i :| 0 <= i < |ids| && k == Mark(w, ids, i);
    assert ids[i] == ids[|ids| - 1];
  }

  lemma {:induction false} SamePrefix(w: Weights, ids: seq<nat>, v: Weights, more: seq<nat>, n: nat)
    requires Lists(ids, w) && Lists(more, v) && n <= |ids| && n <= |more|
    requires SameScores(w, v) && forall i :: 0 <= i < n ==> more[i] == ids[i]
    ensures Prefix(v, more, n) == Prefix(w, ids, n)
  {
    if n > 0 { SamePrefix(w, ids, v, more, n - 1); }
  }

  lemma ZeroTakesOver(v: Weights, more: seq<nat>, n: nat)
    requires Lists(more, v) && |more| == n + 1 && v[more[n]] == 0.0
    ensures Prefix(v, more, n) in RankMap(v, more, |more|) && RankMap(v, more, |more|)[Prefix(v, more, n)] == more[n]
  {
    assert Prefix(v, more, n + 1) == Prefix(v, more, n);
  }

  predicate NamesAt(rank: map<real, nat>, k: real, id: nat) { k in rank && rank[k] == id }

  /** A process that is not a producer enters the registry with score zero. At the next
      rebalance it takes over the key the last producer would have, so that producer is
      never chosen by weight, and it sits in the producer table itself, although nothing can
      be sent to it. */
  lemma ForeignProcessHidesProducer(s: State, random: nat, procName: string, now: int)
    requires Coherent(s) && s.svrInfo != map[] && procName != PRODUCER
    requires Max(s.svrInfo.Keys) + 1 < U64
    ensures var t, last := Rebalanced(Registered(s, random, procName, now)), Max(s.svrInfo.Keys);
            && NewId(s, random) in t.producers && t.producers[NewId(s, random)] == ProducerState(0, 0)
            && last in t.producers && last !in t.rank.Values
            && exists k :: NamesAt(Rebalanced(s).rank, k, last) && NamesAt(t.rank, k, NewId(s, random))
  {
    hide Ranks, NamesOnce;
    var id, last := NewId(s, random), Max(s.svrInfo.Keys);
    var u := Registered(s, random, procName, now);
    NewIdIsNew(s, random);
    assert u.svrInfo == s.svrInfo[id := ServerInfo(procName, now, 0.0)];
    var w := Scores(s.svrInfo);
    assert w.Keys == s.svrInfo.Keys;
    assert Scores(u.svrInfo) == w[id := 0.0];
    var k := KeyOf(w, last);
    ZeroScoreLast(w, Scores(u.svrInfo), id, k);
    assert NamesAt(Rebalanced(s).rank, k, last) && NamesAt(Rebalanced(u).rank, k, id);
  }

  lemma KeyOf(w: Weights, id: nat) returns (k: real)
    requires Positive(w) && id in w
    ensures k in Ranks(w) && Ranks(w)[k] == id
  {
    hide Ranks;
    RanksNameOnce(w);
    assert id in Ranks(w).Values;
    if forall x :: x in Ranks(w) ==> Ranks(w)[x] != id { assert false; }
    k :| k in Ranks(w) && Ranks(w)[k] == id;
  }
}
