/** What holds in every reachable state of the daemon, whatever the interleaving. */
module PushTheorems {
  import opened Words
  import opened OrderedKeys
  import opened LoadBalance
  import opened Scheduler
  import opened Chunking
  import opened PushSystem
  import opened FlowControl
  import opened Conservation

  ghost predicate Inv(s: System) {
    InvRegistry(s) && InvFlow(s) && InvAccount(s) && InvPlaces(s)
  }

  lemma InitialInv()
    ensures Inv(INITIAL)
  {
    assert NamesOnce(map[], {});
    assert Held(INITIAL) == Gather(map[]);
  }

  lemma InvStep(s: System, e: Event)
    requires Inv(s) && Enabled(s, e)
    ensures Inv(Step(s, e))
  {
    assert s.calls.Keys <= s.history.Keys;
    RegistryStep(s, e);
    FlowStep(s, e);
    forall id ensures Accounted(Step(s, e).daemon, Step(s, e).calls, Step(s, e).inherited, id) {
      AccountStep(s, e, id);
    }
    PlacesStep(s, e);
  }

  /** The invariants hold in every state of every run. */
  lemma {:induction false} InvHolds(r: Run, i: nat)
    requires IsRun(r) && i <= |r.events|
    ensures Inv(r.states[i])
  {
    hide Inv, Step, Enabled;
    if i == 0 {
      InitialInv();
    } else {
      InvHolds(r, i - 1);
      assert Next(r.states[i - 1], r.events[i - 1], r.states[i]);
      InvStep(r.states[i - 1], r.events[i - 1]);
    }
  }

  lemma EnterState(r: Run, n: nat)
    requires IsRun(r) && 0 < n <= |r.events|
    ensures Inv(r.states[n - 1]) && Enabled(r.states[n - 1], r.events[n - 1])
    ensures r.states[n] == Step(r.states[n - 1], r.events[n - 1])
  {
    hide Inv, Step, Enabled;
    InvHolds(r, n - 1);
    assert Next(r.states[n - 1], r.events[n - 1], r.states[n - 1 + 1]);
  }

  // ---------- chunks ----------

  /** In every reachable state each chunk of each push is in exactly one place: still to be
      dispatched, awaiting a re-send, in flight or acknowledged. Nothing else is anywhere. */
  lemma NoChunkLost(r: Run, i: nat, c: Request)
    requires IsRun(r) && i <= |r.events|
    ensures var s := r.states[i];
            && (c.push in s.pushes ==> NoWrap(s.pushes[c.push]))
            && Gather(s.loops)[c] + Gather(s.resends)[c] + Gather(InFlight(s.calls))[c] + s.acked[c]
               == if c.push in s.pushes && c in Split(s.pushes[c.push]) then 1 else 0
  {
    InvHolds(r, i);
    var s := r.states[i];
    GatherCount(s.pushes, c);
    assert Held(s)[c] == Gather(s.loops)[c] + Gather(s.resends)[c] + Gather(InFlight(s.calls))[c] + s.acked[c];
  }

  /** No loop, re-send or call of this push is left. */
  ghost predicate Settled(s: System, push: nat) {
    && push in s.pushes && push !in s.loops
    && (forall c :: c in s.resends ==> s.resends[c].push != push)
    && (forall c :: c in s.calls ==> s.calls[c].chunk.push != push)
  }

  lemma NotGathered(m: map<nat, Request>, c: Request)
    requires forall k :: k in m ==> m[k].push != c.push
    ensures Gather(m)[c] == 0
  {
    if c in Gather(m) {
      GatherMember(m, c);
      var k :| k in m && c in Parts(m[k]);
      SplitDistinct(m[k], c);
    }
  }

  /** Once a push has settled, every one of its chunks has been acknowledged, exactly once. */
  lemma SettledMeansAcked(s: System, push: nat, c: Request)
    requires InvPlaces(s) && Settled(s, push) && c in Split(s.pushes[push])
    ensures s.acked[c] == 1
  {
    SplitDistinct(s.pushes[push], c);
    GatherCount(s.pushes, c);
    NotGathered(s.loops, c);
    NotGathered(s.resends, c);
    NotGathered(InFlight(s.calls), c);
    assert Held(s)[c] == Gather(s.loops)[c] + Gather(s.resends)[c] + Gather(InFlight(s.calls))[c] + s.acked[c];
  }

  // ---------- registry ----------

  /** Whenever the mutex is free the three containers name the same servers, idle producers
      are registered, the rank map names each server once, no count is over the limit, and
      a dispatch never dereferences a missing entry or picks a removed producer. */
  lemma RegistryAgrees(r: Run, i: nat, draw: nat)
    requires IsRun(r) && i <= |r.events| && draw <= FACTOR
    ensures var d := r.states[i].daemon;
            && d.svrInfo.Keys == d.producers.Keys == d.rank.Values
            && d.idle <= d.producers.Keys
            && |d.rank| == |d.svrInfo.Keys|
            && (forall id :: id in d.producers ==> d.producers[id].failCount <= 50)
            && Choosable(d)
            && (Choose(d, draw).Send? ==> Choose(d, draw).svrId in d.producers)
  {
    InvHolds(r, i);
    ChoiceIsLive(r.states[i].daemon, draw);
  }

  // ---------- flow control ----------

  /** sendingCount is the number of calls whose task decrease is still to come, it never
      wraps, and it stays within the bound although idle dispatches check no limit. */
  lemma FlowBound(r: Run, i: nat)
    requires IsRun(r) && i <= |r.events|
    ensures var s := r.states[i];
            && s.daemon.sendingCount == |s.calls| < 0x1_0000_0000
            && s.daemon.sendingCount + |s.daemon.idle| <= 3 * s.registrations + 1
            && |s.daemon.producers| <= s.registrations
  {
    InvHolds(r, i);
  }

  ghost predicate NoRemovals(r: Run)
    requires IsRun(r)
  {
    forall i :: 0 <= i < |r.events| ==> r.states[i].daemon.producers.Keys <= r.states[i + 1].daemon.producers.Keys
  }

  lemma OnlyRegisterAdds(s: System, e: Event)
    requires Inv(s) && Enabled(s, e)
    ensures var d, d' := s.daemon, Step(s, e).daemon;
            if e.Register? then
              d'.producers.Keys == d.producers.Keys + {NewId(d, e.random)} && NewId(d, e.random) !in d.producers
            else d'.producers.Keys <= d.producers.Keys
  {
    hide Swept, Rebalanced, Failed, Registered, Pick, NamesOnce, InvFlow, InvAccount, InvPlaces;
    var d := s.daemon;
    match e
    case Register(random, _, now) => RegisterDaemon(d, INT_MAX + s.registrations, random, now);
    case LoadScore(svrId, score) => ScoreCoherent(d, svrId, score);
    case Beat(_, _) =>
    case Sweep(now) => SweepShrinks(d, now);
    case Timer => RebalanceCoherent(d);
    case BeginPush(_, _, _, _) =>
    case SendNext(_, draw, _) => ChoiceIsLive(d, draw);
    case SendAgain(_, draw, _) => ChoiceIsLive(d, draw);
    case Acknowledge(call) => DecreaseCoherent(d, s.calls[call].svrId);
    case Refuse(call) => DecreaseCoherent(d, s.calls[call].svrId);
    case GiveUp(call) => DecreaseCoherent(d, s.calls[call].svrId);
    case Charge(call) => ChargeShrinks(d, s.calls[call].svrId);
  }

  lemma SameKeys(s: System, e: Event, s': System)
    requires Inv(s) && Next(s, e, s') && s.daemon.producers.Keys <= s'.daemon.producers.Keys
    ensures |s'.daemon.producers.Keys| - |s.daemon.producers.Keys| == s'.registrations - s.registrations
  {
    hide Inv, Registered, Swept, Rebalanced, Failed;
    OnlyRegisterAdds(s, e);
    RegistrationsStep(s, e);
    if !e.Register? { assert s.daemon.producers.Keys == s'.daemon.producers.Keys; }
  }

  lemma RegistrationsStep(s: System, e: Event)
    requires Enabled(s, e)
    ensures Step(s, e).registrations == s.registrations + if e.Register? then 1 else 0
  {
  }

  lemma {:induction false} AllStillRegistered(r: Run, i: nat)
    requires IsRun(r) && NoRemovals(r) && i <= |r.events|
    ensures |r.states[i].daemon.producers.Keys| == r.states[i].registrations
  {
    hide Inv, Step, Enabled;
    if i > 0 {
      AllStillRegistered(r, i - 1);
      InvHolds(r, i - 1);
      assert Next(r.states[i - 1], r.events[i - 1], r.states[i - 1 + 1]);
      assert r.states[i - 1].daemon.producers.Keys <= r.states[i - 1 + 1].daemon.producers.Keys;
      SameKeys(r.states[i - 1], r.events[i - 1], r.states[i]);
    }
  }

  /** While no producer has been removed, the bound is in terms of the current producers. */
  lemma FlowBoundWithoutRemovals(r: Run, i: nat)
    requires IsRun(r) && NoRemovals(r) && i <= |r.events|
    ensures var d := r.states[i].daemon;
            d.sendingCount + |d.idle| <= 3 * |d.producers| + 1
  {
    FlowBound(r, i);
    AllStillRegistered(r, i);
    var p := r.states[i].daemon.producers;
    assert |p| == |p.Keys|;
  }

  // ---------- task accounting ----------

  /** The accounting of a live producer is exact if and only if no call carried its id when
      it registered; and then it is idle exactly when it has no call, and a call to finish
      means a task to subtract. */
  ghost predicate ExactIffFresh(s: System, id: nat)
    requires id in s.daemon.producers && id in s.inherited
  {
    var count, calls := s.daemon.producers[id].curTaskCount, CallsOn(s.calls, id);
    && (count == |calls| <==> s.inherited[id] == 0)
    && (s.inherited[id] == 0 ==> (id in s.daemon.idle <==> calls == {}) && (calls != {} ==> count > 0))
  }

  lemma AccountedIsExact(s: System, id: nat)
    requires Accounted(s.daemon, s.calls, s.inherited, id) && |s.calls| < U32
    requires id in s.daemon.producers
    ensures id in s.inherited && ExactIffFresh(s, id)
  {
    CallsOnBound(s.calls, id);
    var count, h, calls := s.daemon.producers[id].curTaskCount, s.inherited[id], CallsOn(s.calls, id);
    if h == 0 { ExactCount(count, |calls|); }
    if count == |calls| { NoInherited(|calls|, h); }
  }

  /** The task count of a live producer equals the calls that carry its id if and only if
      no such call was in flight when it registered; and then it is idle exactly when it
      has no call, so the decrement never underflows. */
  lemma TaskCountExact(r: Run, i: nat, id: nat)
    requires IsRun(r) && i <= |r.events| && id in r.states[i].daemon.producers
    ensures id in r.states[i].inherited && ExactIffFresh(r.states[i], id)
  {
    InvHolds(r, i);
    FlowBound(r, i);
    AccountedIsExact(r.states[i], id);
  }

  lemma NoInherited(n: nat, h: nat)
    requires Same32(n + h, n) && h < U32
    ensures h == 0
  {
  }

  /** Fresh ids: no live producer had a call in flight under its id when it registered. */
  ghost predicate FreshIds(s: System) {
    forall id :: id in s.daemon.producers && id in s.inherited ==> s.inherited[id] == 0
  }

  ghost function SumTasks(producers: map<nat, ProducerState>, ids: set<nat>): nat
    requires ids <= producers.Keys
    decreases ids
  {
    if ids == {} then 0
    else
      var id := Max(ids);
      producers[id].curTaskCount + SumTasks(producers, ids - {id})
  }

  /** The calls whose server id is among these. */
  function CallsAmong(calls: map<nat, Call>, ids: set<nat>): set<nat> {
    set c | c in calls && calls[c].svrId in ids
  }

  lemma {:induction false} TasksAreCalls(s: System, ids: set<nat>)
    requires ids <= s.daemon.producers.Keys
    requires forall id :: id in ids ==> s.daemon.producers[id].curTaskCount == |CallsOn(s.calls, id)|
    ensures SumTasks(s.daemon.producers, ids) == |CallsAmong(s.calls, ids)|
    decreases ids
  {
    if ids == {} {
      assert CallsAmong(s.calls, ids) == {};
    } else {
      var id := Max(ids);
      TasksAreCalls(s, ids - {id});
      assert CallsAmong(s.calls, ids) == CallsOn(s.calls, id) + CallsAmong(s.calls, ids - {id});
    }
  }

  function Orphans(s: System): set<nat> { set c | c in s.calls && s.calls[c].svrId !in s.daemon.producers }

  lemma CallsSplit(s: System)
    ensures |s.calls| == |CallsAmong(s.calls, s.daemon.producers.Keys)| + |Orphans(s)|
  {
    var mine := CallsAmong(s.calls, s.daemon.producers.Keys);
    assert s.calls.Keys == mine + Orphans(s);
    assert |s.calls| == |s.calls.Keys|;
  }

  /** With fresh ids, sendingCount splits into the live producers' task counts and the calls
      orphaned by the removal of their producer. */
  lemma SendingCountSplits(r: Run, i: nat)
    requires IsRun(r) && i <= |r.events| && FreshIds(r.states[i])
    ensures var s := r.states[i];
            s.daemon.sendingCount == SumTasks(s.daemon.producers, s.daemon.producers.Keys) + |Orphans(s)|
  {
    FlowBound(r, i);
    var s := r.states[i];
    forall id | id in s.daemon.producers.Keys ensures s.daemon.producers[id].curTaskCount == |CallsOn(s.calls, id)| {
      TaskCountExact(r, i, id);
    }
    TasksAreCalls(s, s.daemon.producers.Keys);
    CallsSplit(s);
  }

  // ---------- scheduling ----------

  /** With fresh ids, a producer that already has a call is given another one only when
      every live producer already has one. */
  lemma WorkConserving(r: Run, i: nat, draw: nat, other: nat)
    requires IsRun(r) && i <= |r.events| && FreshIds(r.states[i]) && draw <= FACTOR
    requires Choosable(r.states[i].daemon) && Choose(r.states[i].daemon, draw).Send?
    requires CallsOn(r.states[i].calls, Choose(r.states[i].daemon, draw).svrId) != {}
    requires other in r.states[i].daemon.producers
    ensures CallsOn(r.states[i].calls, other) != {}
  {
    var s := r.states[i];
    var chosen := Choose(s.daemon, draw).svrId;
    InvHolds(r, i);
    ChoiceIsLive(s.daemon, draw);
    TaskCountExact(r, i, chosen);
    TaskCountExact(r, i, other);
  }

  /** The daemon waits only if there is no producer or some call is still in flight. */
  lemma NeverStuck(r: Run, i: nat, draw: nat)
    requires IsRun(r) && i <= |r.events| && draw <= FACTOR
    ensures Choosable(r.states[i].daemon)
    ensures var s := r.states[i];
            Choose(s.daemon, draw).Wait? ==> s.daemon.producers == map[] || |s.calls| > 3 * |s.daemon.producers| > 0
  {
    InvHolds(r, i);
    FlowBound(r, i);
    var s := r.states[i];
    ChoiceIsLive(s.daemon, draw);
    if Choose(s.daemon, draw).Wait? { WaitMeansBusy(s.daemon, s.registrations); }
  }

  lemma WaitMeansBusy(d: State, registrations: nat)
    requires !HasRoom(d) && |d.producers| <= registrations && 3 * registrations + 1 < U32
    ensures d.producers == map[] || d.sendingCount > 3 * |d.producers| > 0
  {
    assert |d.producers| % U32 == |d.producers|;
  }

  // ---------- circuit breaker ----------

  /** Failures charged to an id in the first n events, since its last registration or the
      last sweep. */
  ghost function ChargedSince(r: Run, n: nat, id: nat): nat
    requires IsRun(r) && n <= |r.events|
  {
    if n == 0 then 0
    else
      var s, e := r.states[n - 1], r.events[n - 1];
      if Resets(s, e, id) then 0
      else ChargedSince(r, n - 1, id) + if Charges(s, e, id) then 1 else 0
  }

  /** What one event does to the failure count of a producer that is registered after it. */
  ghost predicate FailCountFollows(s: System, e: Event, d': State, id: nat)
    requires Enabled(s, e)
  {
    id in d'.producers ==>
      if Resets(s, e, id) then d'.producers[id].failCount == 0
      else id in s.daemon.producers
           && d'.producers[id].failCount == s.daemon.producers[id].failCount + if Charges(s, e, id) then 1 else 0
  }

  ghost predicate Resets(s: System, e: Event, id: nat) {
    e.Sweep? || (e.Register? && NewId(s.daemon, e.random) == id)
  }

  predicate Charges(s: System, e: Event, id: nat) {
    e.Charge? && e.call in s.calls && s.calls[e.call].svrId == id
  }

  lemma FailCountStep(s: System, e: Event, id: nat)
    requires Inv(s) && Enabled(s, e)
    ensures FailCountFollows(s, e, Step(s, e).daemon, id)
  {
    hide Swept, Rebalanced, Failed, Registered, NewId, Consistent, NamesOnce, InvFlow, InvAccount, InvPlaces;
    var d := s.daemon;
    match e
    case Register(random, _, now) => RegisterResetsFails(s, random, now, id);
    case Sweep(now) => SweepClearsFails(d, now, id);
    case Charge(call) => ChargeCountsFails(d, s.calls[call].svrId, id);
    case _ => QuietStep(s, e, id); assert SameFails(d, Step(s, e).daemon, id);
  }

  lemma RegisterResetsFails(s: System, random: nat, now: int, id: nat)
    requires InvRegistry(s) && random <= INT_MAX
    ensures var d, d' := s.daemon, Registered(s.daemon, random, PRODUCER, now);
            if id == NewId(d, random) then id in d'.producers && d'.producers[id].failCount == 0
            else SameFails(d, d', id)
  {
    RegisterDaemon(s.daemon, INT_MAX + s.registrations, random, now);
  }

  lemma SweepClearsFails(d: State, now: int, id: nat)
    requires Coherent(d)
    ensures id in Swept(d, now).producers ==> Swept(d, now).producers[id].failCount == 0
    ensures id in d.producers && id !in Swept(d, now).producers ==> id in d.svrInfo && !Alive(d.svrInfo[id], now)
  {
    SweepIsRestriction(d, now);
  }

  lemma ChargeCountsFails(d: State, svrId: nat, id: nat)
    requires Coherent(d)
    ensures var d' := Failed(d, svrId);
            && (id in d'.producers ==>
                  && id in d.producers
                  && d'.producers[id].failCount == d.producers[id].failCount + if svrId == id then 1 else 0)
            && (id in d.producers && id !in d'.producers ==>
               id == svrId && d.producers[id].failCount == FAIL_COUNT_LIMIT)
  {
    ChargeRegistry(d, svrId);
  }

  predicate Quiet(e: Event) { !e.Register? && !e.Sweep? && !e.Charge? }

  /** The other events neither remove a producer nor touch its failure count. */
  lemma QuietStep(s: System, e: Event, id: nat)
    requires Inv(s) && Enabled(s, e) && Quiet(e)
    ensures SameFails(s.daemon, Step(s, e).daemon, id)
    ensures id in s.daemon.producers ==> id in Step(s, e).daemon.producers
  {
    hide Swept, Rebalanced, Failed, Registered, Pick, NamesOnce, InvFlow, InvAccount, InvPlaces;
    var d := s.daemon;
    match e
    case LoadScore(svrId, score) => ScoreCoherent(d, svrId, score);
    case Beat(_, _) =>
    case Timer => RebalanceCoherent(d);
    case BeginPush(_, _, _, _) =>
    case SendNext(_, draw, _) => SendKeepsFails(d, draw, id);
    case SendAgain(_, draw, _) => SendKeepsFails(d, draw, id);
    case Acknowledge(call) => DecreaseKeepsFails(d, s.calls[call].svrId, id);
    case Refuse(call) => DecreaseKeepsFails(d, s.calls[call].svrId, id);
    case GiveUp(call) => DecreaseKeepsFails(d, s.calls[call].svrId, id);
  }

  ghost predicate SameFails(d: State, d': State, id: nat) {
    id in d'.producers ==> id in d.producers && d'.producers[id].failCount == d.producers[id].failCount
  }

  lemma SendKeepsFails(d: State, draw: nat, id: nat)
    requires Coherent(d) && draw <= FACTOR && Choosable(d)
    ensures Choose(d, draw).Send? ==> SameFails(d, Dispatched(d, Choose(d, draw).svrId), id)
    ensures Choose(d, draw).Send? && id in d.producers ==> id in Dispatched(d, Choose(d, draw).svrId).producers
  {
    ChoiceIsLive(d, draw);
  }

  lemma DecreaseKeepsFails(d: State, svrId: nat, id: nat)
    ensures SameFails(d, Decreased(d, svrId), id)
    ensures id in d.producers ==> id in Decreased(d, svrId).producers
  {
  }

  /** failCount is exactly the charged failures of the current registration and sweep period. */
  lemma {:induction false} FailCountIsCharged(r: Run, n: nat, id: nat)
    requires IsRun(r) && n <= |r.events| && id in r.states[n].daemon.producers
    ensures r.states[n].daemon.producers[id].failCount == ChargedSince(r, n, id)
  {
    hide Inv, Step, Enabled;
    if n > 0 {
      var s, e := r.states[n - 1], r.events[n - 1];
      EnterState(r, n);
      FailCountStep(s, e, id);
      if !Resets(s, e, id) {
        FailCountIsCharged(r, n - 1, id);
      }
    }
  }

  // ---------- heartbeats and scores ----------

  /** The entry of id after an event, given its entry before. */
  ghost function InfoAfter(s: System, e: Event, id: nat, before: ServerInfo): ServerInfo {
    match e
    case Register(random, procName, now) =>
      if NewId(s.daemon, random) == id then ServerInfo(procName, now, 10.0) else before
    case Beat(svrId, now) => if svrId == id then before.(timestamp := now) else before
    case LoadScore(svrId, score) => if svrId == id then before.(score := score) else before
    case _ => before
  }

  /** What the daemon should know of an id after the first n events: its latest registration
      or heartbeat time and its latest reported score. */
  ghost function LatestInfo(r: Run, n: nat, id: nat): ServerInfo
    requires IsRun(r) && n <= |r.events|
  {
    if n == 0 then ServerInfo(PRODUCER, 0, 0.0)
    else InfoAfter(r.states[n - 1], r.events[n - 1], id, LatestInfo(r, n - 1, id))
  }

  ghost predicate Registers(s: System, e: Event, id: nat) { e.Register? && NewId(s.daemon, e.random) == id }

  ghost predicate InfoFollows(s: System, e: Event, d': State, id: nat) {
    id in d'.svrInfo ==>
      && (Registers(s, e, id) || id in s.daemon.svrInfo)
      && d'.svrInfo[id] == InfoAfter(s, e, id, if id in s.daemon.svrInfo then s.daemon.svrInfo[id] else d'.svrInfo[id])
  }

  lemma RegisterInfo(s: System, e: Event, id: nat)
    requires InvRegistry(s) && Enabled(s, e) && e.Register?
    ensures InfoFollows(s, e, Registered(s.daemon, e.random, PRODUCER, e.now), id)
  {
    var d, newId := s.daemon, NewId(s.daemon, e.random);
    RegisterDaemon(d, INT_MAX + s.registrations, e.random, e.now);
    RegisteredIsEnrolled(d, e.random, e.now);
    EnrolledInfo(d, newId, e.now);
  }

  /** Entries other than the one an event is about stay as they are or disappear. */
  ghost predicate SameInfo(d: State, d': State, id: nat) {
    id in d'.svrInfo ==> id in d.svrInfo && d'.svrInfo[id] == d.svrInfo[id]
  }

  lemma InfoStep(s: System, e: Event, id: nat)
    requires Inv(s) && Enabled(s, e)
    ensures InfoFollows(s, e, Step(s, e).daemon, id)
  {
    hide Swept, Rebalanced, Failed, Registered, NewId, Consistent, NamesOnce, InvFlow, InvAccount, InvPlaces;
    var d := s.daemon;
    match e
    case Register(_, _, _) => RegisterInfo(s, e, id);
    case Sweep(now) => SweepSameInfo(d, now, id);
    case Charge(call) => ChargeSameInfo(d, s.calls[call].svrId, id);
    case Timer => RebalanceCoherent(d); assert SameInfo(d, Rebalanced(d), id);
    case SendNext(_, draw, _) =>
    case SendAgain(_, draw, _) =>
    case _ =>
  }

  lemma SweepSameInfo(d: State, now: int, id: nat)
    requires Coherent(d)
    ensures SameInfo(d, Swept(d, now), id)
  {
    SweepIsRestriction(d, now);
  }

  lemma ChargeSameInfo(d: State, svrId: nat, id: nat)
    requires Coherent(d)
    ensures SameInfo(d, Failed(d, svrId), id)
  {
    ChargeRegistry(d, svrId);
  }

  /** A live producer's timestamp and score are those of its latest heartbeat or registration
      and its latest score report. */
  lemma {:induction false} InfoIsLatest(r: Run, n: nat, id: nat)
    requires IsRun(r) && n <= |r.events| && id in r.states[n].daemon.svrInfo
    ensures r.states[n].daemon.svrInfo[id] == LatestInfo(r, n, id)
  {
    hide Inv, Step, Enabled;
    if n > 0 {
      var s, e := r.states[n - 1], r.events[n - 1];
      EnterState(r, n);
      InfoStep(s, e, id);
      if id in s.daemon.svrInfo { InfoIsLatest(r, n - 1, id); }
    }
  }

  lemma RemovingEvent(s: System, e: Event, id: nat)
    requires Inv(s) && Enabled(s, e)
    requires id in s.daemon.producers && id !in Step(s, e).daemon.producers
    ensures || (e.Sweep? && id in s.daemon.svrInfo && !Alive(s.daemon.svrInfo[id], e.now))
            || (Charges(s, e, id) && s.daemon.producers[id].failCount == FAIL_COUNT_LIMIT)
  {
    hide Swept, Rebalanced, Failed, Registered, Pick, NamesOnce, InvFlow, InvAccount, InvPlaces;
    match e
    case Charge(call) => ChargeCountsFails(s.daemon, s.calls[call].svrId, id);
    case Sweep(now) => SweepClearsFails(s.daemon, now, id);
    case Register(_, _, _) => OnlyRegisterAdds(s, e);
    case _ => QuietStep(s, e, id);
  }

  /** A live producer disappears only in a sweep more than 10 seconds after its latest sign of
      life, or because the failure just charged to it was number 51 of its registration and
      sweep period. */
  lemma RemovalCauses(r: Run, n: nat, id: nat)
    requires IsRun(r) && n < |r.events|
    requires id in r.states[n].daemon.producers && id !in r.states[n + 1].daemon.producers
    ensures var s, e := r.states[n], r.events[n];
            || (e.Sweep? && e.now - LatestInfo(r, n, id).timestamp > 10)
            || (Charges(s, e, id) && ChargedSince(r, n + 1, id) == 51)
  {
    hide Inv, Step, Enabled;
    var s, e := r.states[n], r.events[n];
    InvHolds(r, n);
    assert Next(s, e, r.states[n + 1]);
    RemovingEvent(s, e, id);
    if e.Sweep? { InfoIsLatest(r, n, id); }
    if Charges(s, e, id) { FailCountIsCharged(r, n, id); }
  }

  // ---------- why ids have to be fresh ----------

  lemma SoleRegistration(d: State, now: int)
    requires Coherent(d) && d.svrInfo == map[] && d.idle == {}
    ensures NewId(d, 5) == 5
    ensures var d' := Registered(d, 5, PRODUCER, now);
            && d'.svrInfo == map[5 := ServerInfo(PRODUCER, now, CalLoadBalanceScore(0.0))]
            && d'.producers == map[5 := ProducerState(0, 0)]
            && d'.idle == {5} && d'.sendingCount == d.sendingCount && Coherent(d')
  {
    assert d.producers.Keys == {};
    assert d.producers == map[];
    RegisteredIsEnrolled(d, 5, now);
    RegisterCoherent(d, 5, now);
    RebalanceCoherent(Enrolled(d, 5, now));
  }

  /** One producer and one push. */
  lemma FirstPush(end: nat) returns (s1: System, s2: System)
    requires NoWrap(Request(0, 1, 0, end))
    ensures Next(INITIAL, Register(5, PRODUCER, 0), s1)
    ensures Next(s1, BeginPush(0, 1, 0, end), s2)
    ensures Coherent(s2.daemon) && s2.daemon.svrInfo.Keys == {5} && s2.daemon.svrInfo[5].timestamp == 0
    ensures s2.daemon.idle == {5} && s2.daemon.producers == map[5 := ProducerState(0, 0)]
    ensures s2.daemon.sendingCount == 0 && s2.registrations == 1 && s2.calls == map[] && s2.history == map[]
    ensures s2.loops == s2.pushes == map[0 := Request(0, 1, 0, end)] && s2.resends == map[]
  {
    hide Registered, Ranks, NewId;
    InitialInv();
    SoleRegistration(EMPTY, 0);
    s1 := Step(INITIAL, Register(5, PRODUCER, 0));
    s2 := Step(s1, BeginPush(0, 1, 0, end));
  }

  /** The chunk goes to the producer. */
  lemma FirstSend(s2: System) returns (s3: System)
    requires Coherent(s2.daemon) && s2.daemon.svrInfo.Keys == {5} && s2.daemon.svrInfo[5].timestamp == 0
    requires s2.daemon.idle == {5} && s2.registrations == 1 && s2.calls == map[] && s2.history == map[]
    requires s2.loops == map[0 := Request(0, 1, 0, 7)]
    ensures Next(s2, SendNext(0, 0, 0), s3)
    ensures Coherent(s3.daemon) && s3.daemon.svrInfo.Keys == {5} && s3.daemon.svrInfo[5].timestamp == 0
    ensures s3.daemon.idle == {} && s3.registrations == 1
    ensures s3.calls == map[0 := Call(5, Request(0, 1, 0, 7), Flying)]
    ensures s3.history == map[0 := Request(0, 1, 0, 7)] && s3.loops == map[]
    ensures s3.pushes == s2.pushes && s3.resends == s2.resends
  {
    hide Pick, Consistent, NamesOnce;
    ChoiceIsLive(s2.daemon, 0);
    assert Min({5}) in {5};
    assert Choose(s2.daemon, 0) == Send(5);
    DispatchCoherent(s2.daemon, 5);
    s3 := Step(s2, SendNext(0, 0, 0));
    assert First(s2.loops[0]) == Request(0, 1, 0, 7);
  }

  /** The owner is swept out and another process draws the same id. */
  lemma SecondOwner(s3: System) returns (s4: System, s5: System)
    requires Coherent(s3.daemon) && s3.daemon.svrInfo.Keys == {5} && s3.daemon.svrInfo[5].timestamp == 0
    requires s3.daemon.idle == {} && s3.registrations == 1
    ensures Next(s3, Sweep(11), s4)
    ensures Next(s4, Register(5, PRODUCER, 11), s5)
    ensures s5.calls == s3.calls && s5.daemon.producers == map[5 := ProducerState(0, 0)]
  {
    hide Registered, Swept, Ranks, NamesOnce, NewId;
    s4 := Step(s3, Sweep(11));
    SweepIsRestriction(s3.daemon, 11);
    assert Live(s3.daemon, 11) == {};
    assert s4.daemon.svrInfo == map[];
    assert s4.daemon.idle == {};
    SoleRegistration(s4.daemon, 11);
    s5 := Step(s4, Register(5, PRODUCER, 11));
  }

  lemma LateReply(s5: System) returns (s6: System)
    requires s5.daemon.producers == map[5 := ProducerState(0, 0)]
    requires 0 in s5.calls && s5.calls.Keys == {0} && s5.calls[0].svrId == 5 && s5.calls[0].phase == Flying
    ensures Next(s5, Acknowledge(0), s6)
    ensures 5 in s6.daemon.producers && CallsOn(s6.calls, 5) == {} && s6.daemon.producers[5].curTaskCount == U32 - 1
  {
    s6 := Step(s5, Acknowledge(0));
    assert s6.calls == map[];
  }

  /** A run in which the registry empties, the drawn id repeats, and the answer to a call of
      the former owner arrives: the new owner, which has no call at all, is left with a
      task count of 2^32 - 1. */
  lemma IdReuseMiscounts() returns (r: Run)
    ensures IsRun(r)
    ensures var s := Last(r);
            5 in s.daemon.producers && CallsOn(s.calls, 5) == {} && s.daemon.producers[5].curTaskCount == 0xffff_ffff
  {
    hide Next;
    var s1, s2 := FirstPush(7);
    var s3 := FirstSend(s2);
    var s4, s5 := SecondOwner(s3);
    var s6 := LateReply(s5);
    r := Run([INITIAL, s1, s2, s3, s4, s5, s6],
             [Register(5, PRODUCER, 0), BeginPush(0, 1, 0, 7), SendNext(0, 0, 0), Sweep(11),
              Register(5, PRODUCER, 11), Acknowledge(0)]);
  }
}
