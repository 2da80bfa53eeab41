/** The daemon's globals as an object, updated in place. Each method is one critical
    section, that is, the code between a lock and the matching unlock. */
module Daemon {
  import opened Words
  import opened OrderedKeys
  import opened LoadBalance
  import opened Scheduler
  import opened Chunking

  datatype Reply = Success | Err

  class DaemonState {
    var svrInfo: map<nat, ServerInfo>
    var producers: map<nat, ProducerState>
    var idle: set<nat>
    var rank: map<real, nat>
    var sendingCount: nat

    ghost function State(): Scheduler.State
      reads this
    {
      Scheduler.State(svrInfo, producers, idle, rank, sendingCount)
    }

    constructor ()
      ensures State() == EMPTY && Coherent(State())
    {
      svrInfo, producers, idle, rank, sendingCount := map[], map[], {}, map[], 0;
    }

    /** The loop of `Rebalance` over the registry in id order. */
    method RankAll(ids: seq<nat>, ghost w: Weights)
      requires Lists(ids, w) && w == Scores(svrInfo)
      modifies this`rank, this`producers
      ensures rank == RankMap(w, ids, |ids|)
      ensures producers == WithDefaults(old(producers), Visited(ids, |ids|))
    {
      rank := map[];
      var sum := 0.0;
      ghost var done := {};
      WithDefaultsNone(producers);
      for i := 0 to |ids|
        invariant sum == Prefix(w, ids, i) && rank == RankMap(w, ids, i)
        invariant producers == WithDefaults(old(producers), done)
        invariant done == Visited(ids, i)
      {
        var id := ids[i];
        sum := sum + svrInfo[id].score;
        WithDefaultsStep(old(producers), done, id);
        producers := producers[id := Fetch(producers, id)];
        VisitedSteps(ids, i);
        done := done + {id};
        rank := rank[sum := id];
      }
    }

    /** Rebuilds the rank map from the scores. */
    method Rebalance()
      modifies this`rank, this`producers
      ensures State() == Rebalanced(old(State()))
    {
      hide WithDefaults, Visited, RankMap, Prefix;
      var ids := KeysInOrder(svrInfo.Keys);
      ScoresList(svrInfo, ids);
      RankAll(ids, Scores(svrInfo));
      VisitedAll(svrInfo.Keys, ids);
    }

    /** The id for a new server; `random` is the number drawn for an empty registry. */
    method AssignId(random: nat) returns (id: nat)
      ensures id == NewId(State(), random)
    {
      hide Ascending, Max;
      if svrInfo == map[] {
        id := random;
      } else {
        var ids := KeysInOrder(svrInfo.Keys);
        LastAscending(svrInfo.Keys);
        id := (ids[|ids| - 1] + 1) % U64;
      }
    }

    /** Registration of a process. */
    method ClientRegister(random: nat, procName: string, now: int) returns (id: nat)
      requires random <= INT_MAX
      modifies this
      ensures id == NewId(old(State()), random)
      ensures State() == Registered(old(State()), random, procName, now)
    {
      hide Rebalanced, NewId;
      id := AssignId(random);
      if id !in svrInfo {
        svrInfo := svrInfo[id := ServerInfo(procName, now, 0.0)];
      }
      if procName == PRODUCER {
        var score := CalLoadBalanceScore(0.0);
        svrInfo := svrInfo[id := svrInfo[id].(score := score)];
        producers := producers[id := ProducerState(0, 0)];
        idle := idle + {id};
        Rebalance();
      }
    }

    method LoadBalance(id: nat, score: real) returns (reply: Reply)
      modifies this`svrInfo
      ensures State() == Scored(old(State()), id, score)
      ensures reply == if id in old(svrInfo) then Success else Err
    {
      reply := Success;
      if id !in svrInfo {
        reply := Err;
      } else {
        svrInfo := svrInfo[id := svrInfo[id].(score := score)];
      }
    }

    method HeartBeat(id: nat, now: int) returns (reply: Reply)
      modifies this`svrInfo
      ensures State() == Beaten(old(State()), id, now)
      ensures reply == if id in old(svrInfo) then Success else Err
    {
      reply := Success;
      if id !in svrInfo {
        reply := Err;
      } else {
        svrInfo := svrInfo[id := svrInfo[id].(timestamp := now)];
      }
    }

    method SmallestIdle() returns (id: nat)
      requires idle != {}
      ensures id == Min(idle)
    {
      ghost var least := Min(idle);
      assert least in idle && AtLeast(least, idle);
      id :| id in idle && AtLeast(id, idle);
      assert AtLeast(id, idle);
    }

    /** `gRank2SvrId.rbegin()->first` */
    method LastKey() returns (total: real)
      requires rank != map[]
      ensures total == TopKey(rank)
    {
      ghost var top := TopKey(rank);
      assert Topmost(rank, top);
      total :| total in rank && forall k :: k in rank ==> k <= total;
    }

    /** `gRank2SvrId.lower_bound(r)` */
    method FirstKeyFrom(r: real) returns (key: real)
      requires exists k :: k in rank && r <= k
      ensures key == LowerBound(rank, r)
    {
      ghost var found := LowerBound(rank, r);
      assert FirstNotLess(rank, r, found);
      key :| key in rank && r <= key && forall k :: k in rank && r <= k ==> key <= k;
    }

    /** The weighted choice for the number drawn by the random generator. */
    method DrawServer(draw: nat) returns (id: nat)
      requires Drawable(rank) && draw <= FACTOR
      ensures id == Pick(rank, draw)
    {
      var total := LastKey();
      RandomRankBounded(rank, draw);
      var r := draw as real / FACTOR as real * total;
      assert r == RandomRank(rank, draw);
      assert TopKey(rank) in rank;
      var key := FirstKeyFrom(r);
      id := rank[key];
    }

    /** The bookkeeping of one started call. */
    method StartCall(svrId: nat)
      modifies this`idle, this`sendingCount, this`producers
      ensures State() == Dispatched(old(State()), svrId)
    {
      idle := idle - {svrId};
      sendingCount := (sendingCount + 1) % U32;
      var p := Fetch(producers, svrId);
      producers := producers[svrId := p.(curTaskCount := (p.curTaskCount + 1) % U32)];
    }

    /** The locked choice in `SelectProducerAndSend`: an idle producer, a weighted draw while
        there is room, or nothing. */
    method SelectProducer(draw: nat) returns (sent: Choice)
      requires Choosable(State()) && draw <= FACTOR
      modifies this`idle, this`sendingCount, this`producers
      ensures sent == Choose(old(State()), draw)
      ensures State() == if sent.Send? then Dispatched(old(State()), sent.svrId) else old(State())
    {
      var producerSize := |producers| % U32;
      if idle != {} {
        var svrId := SmallestIdle();
        StartCall(svrId);
        sent := Send(svrId);
      } else if sendingCount <= 3 * producerSize % U32 && producerSize != 0 {
        var svrId := DrawServer(draw);
        StartCall(svrId);
        sent := Send(svrId);
      } else {
        sent := Wait;
      }
    }

    /** One pass of the loop of `SelectProducerAndSend`: the chunk at the cursor is sent and
        the cursor advances, or the daemon has to wait. */
    method SendPass(request: Request, draw: nat) returns (sent: Choice, req: Request, rest: Request)
      requires Pending(request) && draw <= FACTOR && Choosable(State())
      modifies this`idle, this`sendingCount, this`producers
      ensures sent == Choose(old(State()), draw)
      ensures State() == if sent.Send? then Dispatched(old(State()), sent.svrId) else old(State())
      ensures req == First(request) && rest == if sent.Send? then Rest(request) else request
    {
      req := Request(request.push, request.msg, request.start, ChunkEnd(request.start, request.end));
      sent := SelectProducer(draw);
      rest := if sent.Send? then request.(start := Advance(request.start)) else request;
    }

    /** The loop of `SelectProducerAndSend` while its handler runs alone, for as many passes
        as there are draws. What it has sent and what it has left make up the request; every
        chunk went where the choice in its pass said; and it stops with something left only
        when the draws are used up or it waits. `trail` lists the states between the sends. */
    method SelectProducerAndSend(request: Request, draws: seq<nat>)
      returns (chunks: seq<Request>, svrIds: seq<nat>, rest: Request, ghost trail: seq<Scheduler.State>)
      requires Coherent(State()) && NoWrap(request) && forall i :: 0 <= i < |draws| ==> draws[i] <= FACTOR
      modifies this`idle, this`sendingCount, this`producers
      ensures Coherent(State()) && producers.Keys == old(producers.Keys)
      ensures NoWrap(rest) && Split(request) == chunks + Split(rest)
      ensures Pending(rest) ==> |chunks| == |draws| || Waits(State())
      ensures |trail| == |chunks| + 1 && |svrIds| == |chunks| <= |draws| && Sends(trail, draws, svrIds)
      ensures trail[0] == old(State()) && trail[|chunks|] == State()
      ensures forall i :: 0 <= i < |svrIds| ==> svrIds[i] in producers
      ensures sendingCount == if chunks == [] then old(sendingCount) else (old(sendingCount) + |chunks|) % U32
    {
      hide Coherent, Choose, NoWrap, Split, First, Rest, Dispatched, Waits, Follows, Sends;
      chunks, svrIds, rest, trail := [], [], request, [State()];
      SendsNothing(trail, draws);
      var pass := 0;
      while rest.start <= rest.end && pass < |draws|
        invariant pass <= |draws| && Coherent(State())
        invariant NoWrap(rest) && Split(request) == chunks + Split(rest)
        invariant |chunks| == pass || (|chunks| < pass && Waits(State()))
        invariant |trail| == |chunks| + 1 && |svrIds| == |chunks| && Sends(trail, draws, svrIds)
        invariant trail[0] == old(State()) && trail[|chunks|] == State()
        decreases |draws| - pass
      {
        ghost var before := State();
        ChoiceIsLive(before, draws[pass]);
        WaitsIffChoice(before, draws[pass]);
        var sent, req, left := SendPass(rest, draws[pass]);
        if sent.Send? {
          DispatchCoherent(before, sent.svrId);
          MoveFirst(request, chunks, rest);
          FollowsPass(before, draws[pass], sent.svrId, State());
          SendsSnoc(trail, draws, svrIds, sent.svrId, State());
          chunks, svrIds, trail := chunks + [req], svrIds + [sent.svrId], trail + [State()];
        }
        rest, pass := left, pass + 1;
      }
      SendsMean(trail, draws, svrIds);
    }

    method Drop(svrId: nat)
      modifies this
      ensures State() == Rebalanced(Dropped(old(State()), svrId))
    {
      idle := idle - {svrId};
      producers := producers - {svrId};
      svrInfo := svrInfo - {svrId};
      assert State() == Dropped(old(State()), svrId);
      Rebalance();
    }

    /** The lock section of `OnResponseFail` with the circuit breaker. */
    method CountFailure(svrId: nat)
      modifies this
      ensures State() == Failed(old(State()), svrId)
    {
      hide Ranks;
      if svrId in producers {
        var count := (producers[svrId].failCount + 1) % U32;
        if count > FAIL_COUNT_LIMIT {
          FailedDrops(State(), svrId);
          Drop(svrId);
        } else {
          producers := producers[svrId := producers[svrId].(failCount := count)];
        }
      }
    }

    method DecreaseProducerTask(svrId: nat)
      modifies this`sendingCount, this`producers, this`idle
      ensures State() == Decreased(old(State()), svrId)
    {
      sendingCount := (sendingCount + U32 - 1) % U32;
      if svrId in producers {
        var curTask := (producers[svrId].curTaskCount + U32 - 1) % U32;
        producers := producers[svrId := producers[svrId].(curTaskCount := curTask)];
        if 0 >= curTask {
          idle := idle + {svrId};
        }
      }
    }

    /** One entry of the erasing sweep. */
    method SweepEntry(svrId: nat, now: int)
      modifies this
      ensures State() == SweepOne(old(State()), svrId, now)
    {
      if svrId in svrInfo && now - svrInfo[svrId].timestamp > ALIVE_DURATION {
        var procName := svrInfo[svrId].procName;
        if PRODUCER == procName {
          Drop(svrId);
        } else {
          svrInfo := svrInfo - {svrId};
        }
      }
    }

    /** The liveness sweep over the registry, and the reset of the failure counts. */
    method CheckProcAlive(now: int)
      modifies this
      ensures State() == Swept(old(State()), now)
    {
      hide Ranks;
      var ids := KeysInOrder(svrInfo.Keys);
      for i := 0 to |ids|
        invariant State() == SweepFirst(old(State()), ids, i, now)
      {
        SweepEntry(ids[i], now);
      }
      producers := map id | id in producers :: producers[id].(failCount := 0);
    }
  }

  /** A pass with this draw sends to svrId and leaves t. */
  ghost predicate Follows(s: Scheduler.State, draw: nat, svrId: nat, t: Scheduler.State) {
    draw <= FACTOR && Choosable(s) && Choose(s, draw) == Send(svrId) && t == Dispatched(s, svrId)
  }

  lemma FollowsPass(s: Scheduler.State, draw: nat, svrId: nat, t: Scheduler.State)
    requires draw <= FACTOR && Choosable(s) && Choose(s, draw) == Send(svrId) && t == Dispatched(s, svrId)
    ensures Follows(s, draw, svrId, t)
  {
  }

  /** Each send follows the choice for its draw in the state the send before it left. */
  ghost predicate Sends(trail: seq<Scheduler.State>, draws: seq<nat>, svrIds: seq<nat>) {
    && |trail| == |svrIds| + 1 && |svrIds| <= |draws|
    && forall i :: 0 <= i < |svrIds| ==> Follows(trail[i], draws[i], svrIds[i], trail[i + 1])
  }

  /** What a series of sends does to the registry and the counter. */
  lemma {:induction false} SendsMean(trail: seq<Scheduler.State>, draws: seq<nat>, svrIds: seq<nat>)
    requires Sends(trail, draws, svrIds) && Coherent(trail[0])
    ensures var s, t, n := trail[0], trail[|svrIds|], |svrIds|;
            && Coherent(t) && t.producers.Keys == s.producers.Keys
            && t.sendingCount == (if n == 0 then s.sendingCount else (s.sendingCount + n) % U32)
            && forall i :: 0 <= i < n ==> svrIds[i] in s.producers.Keys
    decreases |svrIds|
  {
    hide Coherent, Choose, Choosable, Dispatched;
    var n := |svrIds|;
    if n > 0 {
      var before, last := trail[n - 1], svrIds[n - 1];
      assert Follows(before, draws[n - 1], last, trail[n]);
      SendsFewer(trail, draws, svrIds);
      SendsMean(trail[..n], draws, svrIds[..n - 1]);
      ChoiceIsLive(before, draws[n - 1]);
      DispatchCoherent(before, last);
      CountUp(before, last);
      forall i | 0 <= i < n ensures svrIds[i] in trail[0].producers.Keys {
        if i < n - 1 { assert svrIds[i] == svrIds[..n - 1][i]; }
      }
    }
  }

  lemma SendsFewer(trail: seq<Scheduler.State>, draws: seq<nat>, svrIds: seq<nat>)
    requires Sends(trail, draws, svrIds) && svrIds != []
    ensures Sends(trail[..|svrIds|], draws, svrIds[..|svrIds| - 1])
  {
    hide Follows;
    var n := |svrIds|;
    forall i | 0 <= i < n - 1 ensures Follows(trail[..n][i], draws[i], svrIds[..n - 1][i], trail[..n][i + 1]) {
      assert Follows(trail[i], draws[i], svrIds[i], trail[i + 1]);
    }
  }

  lemma SendsNothing(trail: seq<Scheduler.State>, draws: seq<nat>)
    requires |trail| == 1
    ensures Sends(trail, draws, [])
  {
  }

  lemma SendsSnoc(trail: seq<Scheduler.State>, draws: seq<nat>, svrIds: seq<nat>, svrId: nat, t: Scheduler.State)
    requires Sends(trail, draws, svrIds) && |svrIds| < |draws|
    requires Follows(trail[|svrIds|], draws[|svrIds|], svrId, t)
    ensures Sends(trail + [t], draws, svrIds + [svrId]) && |trail| == |svrIds| + 1
  {
    hide Follows;
  }

  lemma MoveFirst(request: Request, chunks: seq<Request>, rest: Request)
    requires NoWrap(request) && NoWrap(rest) && Pending(rest) && Split(request) == chunks + Split(rest)
    ensures NoWrap(Rest(rest)) && Split(request) == (chunks + [First(rest)]) + Split(Rest(rest))
  {
    hide NoWrap;
    FirstIsChunk(rest);
    assert chunks + ([First(rest)] + Split(Rest(rest))) == (chunks + [First(rest)]) + Split(Rest(rest));
  }

  lemma CountUp(s: Scheduler.State, id: nat)
    ensures Dispatched(s, id).sendingCount == (s.sendingCount + 1) % U32
  {
  }

  lemma ScoresList(svrInfo: map<nat, ServerInfo>, ids: seq<nat>)
    requires ids == Ascending(svrInfo.Keys)
    ensures Lists(ids, Scores(svrInfo)) && Scores(svrInfo).Keys == svrInfo.Keys
  {
    assert Scores(svrInfo).Keys == svrInfo.Keys;
    assert forall i :: 0 <= i < |ids| ==> ids[i] in ids;
  }

  /** The keys a walk has passed after n steps. */
  ghost function Visited(ids: seq<nat>, n: nat): set<nat>
    requires n <= |ids|
  {
    set id | id in ids[..n]
  }

  lemma VisitedSteps(ids: seq<nat>, n: nat)
    requires n < |ids|
    ensures Visited(ids, n + 1) == Visited(ids, n) + {ids[n]}
  {
    assert ids[..n + 1] == ids[..n] + [ids[n]];
  }

  lemma VisitedAll(s: set<nat>, ids: seq<nat>)
    requires ids == Ascending(s)
    ensures Visited(ids, |ids|) == s
  {
    assert ids[..|ids|] == ids;
  }

  lemma FailedDrops(s: Scheduler.State, id: nat)
    requires id in s.producers && (s.producers[id].failCount + 1) % U32 > FAIL_COUNT_LIMIT
    ensures Failed(s, id) == Rebalanced(Dropped(s, id))
  {
    hide Ranks;
  }

  lemma WithDefaultsNone(producers: map<nat, ProducerState>)
    ensures WithDefaults(producers, {}) == producers
  {
  }

  lemma WithDefaultsStep(producers: map<nat, ProducerState>, done: set<nat>, id: nat)
    ensures var p := WithDefaults(producers, done);
            p[id := Fetch(p, id)] == WithDefaults(producers, done + {id})
  {
  }
}
