/** Counting: `sendingCount`, the per-producer task counts, the idle set and the flow-control
    bound, as invariants of every run. */
module FlowControl {
  import opened Words
  import opened OrderedKeys
  import opened LoadBalance
  import opened Scheduler
  import opened Chunking
  import opened PushSystem

  // ---------- sendingCount and its bound ----------

  ghost predicate InvFlow(s: System) {
    && s.daemon.sendingCount == |s.calls|
    && |s.calls| + |s.daemon.idle| <= 3 * s.registrations + 1
    && |s.daemon.producers| <= s.registrations
  }

  lemma RemoveOne<V>(m: map<nat, V>, k: nat)
    requires k in m
    ensures |m - {k}| == |m| - 1
  {
    assert (m - {k}).Keys == m.Keys - {k};
  }

  lemma DispatchSizes(d: State, id: nat)
    requires id in d.producers
    ensures |Dispatched(d, id).producers| == |d.producers|
    ensures |Dispatched(d, id).idle| == |d.idle| - if id in d.idle then 1 else 0
    ensures Dispatched(d, id).sendingCount == (d.sendingCount + 1) % U32
  {
    var p := Dispatched(d, id).producers;
    assert p.Keys == d.producers.Keys;
    assert |p| == |p.Keys| == |d.producers.Keys| == |d.producers|;
    if id !in d.idle { assert d.idle - {id} == d.idle; }
  }

  /** Starting a call on id keeps within the bound. */
  ghost predicate WithinBound(s: System, id: nat) {
    && id in s.daemon.producers
    && (|s.daemon.idle| > 0 ==> id in s.daemon.idle)
    && (|s.daemon.idle| == 0 ==> |s.calls| <= 3 * s.registrations)
  }

  /** The weighted branch runs only below the limit; the idle branch ignores the limit but
      uses up an idle producer. */
  lemma ChoiceWithinBound(s: System, draw: nat)
    requires InvRegistry(s) && InvFlow(s) && draw <= FACTOR
    ensures Choosable(s.daemon)
    ensures Choose(s.daemon, draw).Send? ==> WithinBound(s, Choose(s.daemon, draw).svrId)
  {
    hide Pick, Consistent, NamesOnce;
    ChoiceIsLive(s.daemon, draw);
    if s.daemon.idle == {} && HasRoom(s.daemon) { RoomWithin(s.daemon, s.registrations); }
  }

  lemma RoomWithin(d: State, registrations: nat)
    requires HasRoom(d) && |d.producers| <= registrations && 3 * registrations + 1 < U32
    ensures d.sendingCount <= 3 * registrations
  {
  }

  lemma SendFlow(s: System, draw: nat, chunk: Request, call: nat)
    requires InvRegistry(s) && InvFlow(s) && draw <= FACTOR && call !in s.calls
    requires Choosable(s.daemon) && Choose(s.daemon, draw).Send?
    ensures InvFlow(Started(s, Choose(s.daemon, draw).svrId, chunk, call))
    ensures |s.calls| + 1 < U32
  {
    ChoiceWithinBound(s, draw);
    StartFlow(s, Choose(s.daemon, draw).svrId, chunk, call);
  }

  lemma StartFlow(s: System, id: nat, chunk: Request, call: nat)
    requires InvFlow(s) && 3 * s.registrations + 1 < U32 && call !in s.calls
    requires WithinBound(s, id)
    ensures InvFlow(Started(s, id, chunk, call)) && |s.calls| + 1 < U32
  {
    hide Dispatched;
    DispatchSizes(s.daemon, id);
  }

  lemma FinishFlow(s: System, call: nat)
    requires InvRegistry(s) && InvFlow(s) && call in s.calls
    ensures InvFlow(Finished(s, call))
  {
    hide Consistent, NamesOnce;
    RemoveOne(s.calls, call);
    var id, d, d' := s.calls[call].svrId, s.daemon, Finished(s, call).daemon;
    DecreaseCoherent(d, id);
    assert |d'.producers| == |d'.producers.Keys| == |d.producers.Keys| == |d.producers|;
  }

  lemma ShrinkFlow(d: State, d': State)
    requires d'.idle <= d.idle && d'.producers.Keys <= d.producers.Keys
    ensures |d'.idle| <= |d.idle| && |d'.producers| <= |d.producers|
  {
    SubsetSize(d'.idle, d.idle);
    SubsetSize(d'.producers.Keys, d.producers.Keys);
    assert |d'.producers| == |d'.producers.Keys| && |d.producers| == |d.producers.Keys|;
  }

  lemma SweepShrinks(d: State, now: int)
    requires Coherent(d)
    ensures var d' := Swept(d, now);
            d'.idle <= d.idle && d'.producers.Keys <= d.producers.Keys && d'.sendingCount == d.sendingCount
  {
    SweepIsRestriction(d, now);
  }

  lemma ChargeShrinks(d: State, id: nat)
    requires Coherent(d)
    ensures var d' := Failed(d, id);
            d'.idle <= d.idle && d'.producers.Keys <= d.producers.Keys && d'.sendingCount == d.sendingCount
  {
    ChargeRegistry(d, id);
  }

  lemma RegisterFlow(s: System, id: nat, d': State)
    requires InvFlow(s) && Coherent(s.daemon) && Enrolls(s.daemon, id, d')
    ensures d'.sendingCount == |s.calls|
    ensures |s.calls| + |d'.idle| <= 3 * (s.registrations + 1) + 1
    ensures |d'.producers| <= s.registrations + 1
  {
  }

  lemma FlowStep(s: System, e: Event)
    requires InvRegistry(s) && InvFlow(s) && Enabled(s, e)
    requires s.calls.Keys <= s.history.Keys
    ensures InvFlow(Step(s, e))
  {
    hide Registered, Swept, Rebalanced, Failed, Pick, Consistent, NamesOnce, Started, Finished, Dispatched, Decreased;
    var d, s' := s.daemon, Step(s, e);
    match e
    case Register(random, _, now) =>
      RegisterDaemon(d, INT_MAX + s.registrations, random, now);
      RegisterFlow(s, NewId(d, random), Registered(d, random, PRODUCER, now));
    case LoadScore(svrId, score) => ScoreCoherent(d, svrId, score);
    case Beat(_, _) =>
    case Sweep(now) => SweepShrinks(d, now); ShrinkFlow(d, Swept(d, now));
    case Timer => RebalanceCoherent(d); ShrinkFlow(d, Rebalanced(d));
    case BeginPush(_, _, _, _) =>
    case SendNext(push, draw, call) =>
      if Choose(d, draw).Send? { SendFlow(s, draw, First(s.loops[push]), call); }
    case SendAgain(failed, draw, call) =>
      if Choose(d, draw).Send? { SendFlow(s, draw, First(s.resends[failed]), call); }
    case Acknowledge(call) => FinishFlow(s, call);
    case Refuse(call) => FinishFlow(s, call);
    case GiveUp(call) => FinishFlow(s, call);
    case Charge(call) =>
      ChargeShrinks(d, s.calls[call].svrId);
      ShrinkFlow(d, Failed(d, s.calls[call].svrId));
      assert s'.calls.Keys == s.calls.Keys;
      assert |s'.calls| == |s'.calls.Keys| == |s.calls.Keys| == |s.calls|;
  }

  // ---------- per-producer accounting ----------

  /** Two counts agree in 32-bit arithmetic. */
  predicate Same32(a: nat, b: nat) { a % U32 == b % U32 }

  /** The accounting law of one producer with this task count, when n calls carry its id and
      `inherited` of them already did when it registered. The task count lags behind by
      exactly the inherited calls; without any it is idle exactly when the count is zero. */
  predicate Tallied(count: nat, inherited: nat, n: nat, isIdle: bool) {
    && count < U32 && inherited < U32
    && Same32(count + inherited, n)
    && (inherited == 0 ==> (isIdle <==> count == 0))
  }

  ghost predicate Accounted(d: State, calls: map<nat, Call>, inherited: map<nat, nat>, id: nat) {
    id in d.producers ==>
      && id in inherited
      && Tallied(d.producers[id].curTaskCount, inherited[id], |CallsOn(calls, id)|, id in d.idle)
  }

  ghost predicate InvAccount(s: System) {
    forall id :: Accounted(s.daemon, s.calls, s.inherited, id)
  }

  lemma CallsOnBound(calls: map<nat, Call>, id: nat)
    ensures |CallsOn(calls, id)| <= |calls|
  {
    SubsetSize(CallsOn(calls, id), calls.Keys);
  }

  lemma CallsOnStarted(calls: map<nat, Call>, call: nat, c: Call, id: nat)
    requires call !in calls
    ensures |CallsOn(calls[call := c], id)| == |CallsOn(calls, id)| + if c.svrId == id then 1 else 0
  {
    var after := CallsOn(calls[call := c], id);
    if c.svrId == id {
      assert after == CallsOn(calls, id) + {call};
    } else {
      assert after == CallsOn(calls, id);
    }
  }

  lemma TallyUp(count: nat, inherited: nat, n: nat, isIdle: bool)
    requires Tallied(count, inherited, n, isIdle) && n + 1 < U32
    ensures Tallied((count + 1) % U32, inherited, n + 1, false)
  {
    SameUp(count, inherited, n);
    if inherited == 0 { ExactCount(count, n); }
  }

  lemma SameUp(count: nat, inherited: nat, n: nat)
    requires Same32(count + inherited, n) && count < U32
    ensures Same32((count + 1) % U32 + inherited, n + 1)
  {
  }

  lemma TallyDown(count: nat, inherited: nat, n: nat, isIdle: bool)
    requires Tallied(count, inherited, n, isIdle) && 0 < n < U32
    ensures var left := (count + U32 - 1) % U32;
            Tallied(left, inherited, n - 1, isIdle || left == 0)
  {
    if inherited == 0 { ExactCount(count, n); }
  }

  lemma StartAccount(s: System, svrId: nat, chunk: Request, call: nat, id: nat)
    requires Accounted(s.daemon, s.calls, s.inherited, id)
    requires call !in s.calls && svrId in s.daemon.producers && |s.calls| + 1 < U32
    ensures var s' := Started(s, svrId, chunk, call);
            Accounted(s'.daemon, s'.calls, s'.inherited, id)
  {
    hide CallsOn, Tallied;
    CallsOnBound(s.calls, id);
    CallsOnStarted(s.calls, call, Call(svrId, chunk, Flying), id);
    if id == svrId {
      TallyUp(s.daemon.producers[id].curTaskCount, s.inherited[id], |CallsOn(s.calls, id)|, id in s.daemon.idle);
    }
  }

  lemma ExactCount(c: nat, n: nat)
    requires Same32(c, n) && c < U32 && n < U32
    ensures c == n
  {
  }

  lemma CallsOnFinished(calls: map<nat, Call>, call: nat, id: nat)
    requires call in calls
    ensures |CallsOn(calls - {call}, id)| == |CallsOn(calls, id)| - if calls[call].svrId == id then 1 else 0
  {
    if calls[call].svrId == id {
      assert CallsOn(calls, id) == CallsOn(calls - {call}, id) + {call};
    } else {
      assert CallsOn(calls, id) == CallsOn(calls - {call}, id);
    }
  }

  lemma FinishAccount(s: System, call: nat, id: nat)
    requires Accounted(s.daemon, s.calls, s.inherited, id)
    requires call in s.calls && |s.calls| < U32
    ensures var s' := Finished(s, call);
            Accounted(s'.daemon, s'.calls, s'.inherited, id)
  {
    hide CallsOn, Tallied;
    CallsOnBound(s.calls, id);
    CallsOnFinished(s.calls, call, id);
    if id == s.calls[call].svrId && id in s.daemon.producers {
      TallyDown(s.daemon.producers[id].curTaskCount, s.inherited[id], |CallsOn(s.calls, id)|, id in s.daemon.idle);
    }
  }

  lemma RegisterAccount(s: System, newId: nat, d': State, id: nat)
    requires Accounted(s.daemon, s.calls, s.inherited, id) && Enrolls(s.daemon, newId, d')
    requires |s.calls| < U32
    ensures Accounted(d', s.calls, s.inherited[newId := |CallsOn(s.calls, newId)|], id)
  {
    CallsOnBound(s.calls, newId);
  }

  /** Steps that remove producers or only touch failure counts keep the accounting. */
  ghost predicate KeepsCounts(d: State, d': State) {
    forall id :: id in d'.producers ==>
      && id in d.producers
      && d'.producers[id].curTaskCount == d.producers[id].curTaskCount
      && (id in d'.idle <==> id in d.idle)
  }

  lemma SweepKeepsCounts(d: State, now: int)
    requires Coherent(d)
    ensures KeepsCounts(d, Swept(d, now))
  {
    SweepIsRestriction(d, now);
  }

  lemma ChargeKeepsCounts(d: State, id: nat)
    requires Coherent(d)
    ensures KeepsCounts(d, Failed(d, id))
  {
    ChargeRegistry(d, id);
  }

  lemma KeptAccount(d: State, d': State, calls: map<nat, Call>, calls': map<nat, Call>, inherited: map<nat, nat>,
                    id: nat)
    requires Accounted(d, calls, inherited, id) && KeepsCounts(d, d')
    requires CallsOn(calls', id) == CallsOn(calls, id)
    ensures Accounted(d', calls', inherited, id)
  {
  }

  lemma AccountStep(s: System, e: Event, id: nat)
    requires InvRegistry(s) && InvFlow(s) && Enabled(s, e)
    requires s.calls.Keys <= s.history.Keys
    requires Accounted(s.daemon, s.calls, s.inherited, id)
    ensures var s' := Step(s, e); Accounted(s'.daemon, s'.calls, s'.inherited, id)
  {
    hide Registered, Swept, Rebalanced, Failed, Pick, Consistent, NamesOnce, Started, Finished, Dispatched, Decreased;
    var d, s' := s.daemon, Step(s, e);
    match e
    case Register(random, _, now) =>
      RegisterDaemon(d, INT_MAX + s.registrations, random, now);
      RegisterAccount(s, NewId(d, random), Registered(d, random, PRODUCER, now), id);
    case LoadScore(svrId, score) =>
      ScoreCoherent(d, svrId, score);
      KeptAccount(d, s'.daemon, s.calls, s.calls, s.inherited, id);
    case Beat(_, _) => KeptAccount(d, s'.daemon, s.calls, s.calls, s.inherited, id);
    case Sweep(now) => SweepKeepsCounts(d, now); KeptAccount(d, Swept(d, now), s.calls, s.calls, s.inherited, id);
    case Timer => RebalanceCoherent(d); KeptAccount(d, Rebalanced(d), s.calls, s.calls, s.inherited, id);
    case BeginPush(_, _, _, _) =>
    case SendNext(push, draw, call) =>
      ChoiceIsLive(d, draw);
      if Choose(d, draw).Send? {
        SendFlow(s, draw, First(s.loops[push]), call);
        StartAccount(s, Choose(d, draw).svrId, First(s.loops[push]), call, id);
      }
    case SendAgain(failed, draw, call) =>
      ChoiceIsLive(d, draw);
      if Choose(d, draw).Send? {
        SendFlow(s, draw, First(s.resends[failed]), call);
        StartAccount(s, Choose(d, draw).svrId, First(s.resends[failed]), call, id);
      }
    case Acknowledge(call) => FinishAccount(s, call, id);
    case Refuse(call) => FinishAccount(s, call, id);
    case GiveUp(call) => FinishAccount(s, call, id);
    case Charge(call) =>
      var svrId := s.calls[call].svrId;
      ChargeKeepsCounts(d, svrId);
      assert CallsOn(s'.calls, id) == CallsOn(s.calls, id);
      KeptAccount(d, Failed(d, svrId), s.calls, s'.calls, s.inherited, id);
  }
}
