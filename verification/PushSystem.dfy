/** The daemon and its outstanding calls as one state machine. Every event is one critical
    section; events of different handlers interleave freely. */
module PushSystem {
  import opened Words
  import opened OrderedKeys
  import opened LoadBalance
  import opened Scheduler
  import opened Chunking

  /** Flying: no completion seen yet. Charged: the failed call has counted its failure but
      not yet decreased the task count; other handlers may run in between. */
  datatype Phase = Flying | Charged

  datatype Call = Call(svrId: nat, chunk: Request, phase: Phase)

  /** `daemon` is what the program stores. The rest is where each request is:
      pushes     every BeginPush request received
      loops      BeginPush handlers still in their loop, with the undispatched rest
      resends    handlers of failed calls that are about to send the same chunk again
      calls      calls started whose DecreaseProducerTask has not run
      acked      chunks answered with SUCCESS
      history    the chunk of every call ever started
      inherited  per live producer, the calls that already carried its id when it registered
      registrations  the number of registrations so far */
  datatype System = System(
    daemon: State,
    pushes: map<nat, Request>,
    loops: map<nat, Request>,
    resends: map<nat, Request>,
    calls: map<nat, Call>,
    acked: multiset<Request>,
    history: map<nat, Request>,
    inherited: map<nat, nat>,
    registrations: nat)

  const INITIAL := System(EMPTY, map[], map[], map[], map[], multiset{}, map[], map[], 0)

  datatype Event =
    | Register(random: nat, procName: string, now: int)
    | LoadScore(svrId: nat, score: real)
    | Beat(svrId: nat, now: int)
    | Sweep(now: int)
    | Timer
    | BeginPush(push: nat, msg: nat, start: nat, end: nat)
    | SendNext(push: nat, draw: nat, call: nat)
    | SendAgain(failed: nat, draw: nat, call: nat)
    | Acknowledge(call: nat)
    | Refuse(call: nat)
    | Charge(call: nat)
    | GiveUp(call: nat)

  /** The calls that carry a server id. */
  function CallsOn(calls: map<nat, Call>, svrId: nat): set<nat> {
    set c | c in calls && calls[c].svrId == svrId
  }

  ghost predicate Enabled(s: System, e: Event) {
    match e
    case Register(random, procName, now) =>
      random <= INT_MAX && procName == PRODUCER && 3 * (s.registrations + 1) + 1 < U32
    case LoadScore(svrId, score) => score > 0.0
    case Beat(_, _) => true
    case Sweep(_) => true
    case Timer => true
    case BeginPush(push, msg, start, end) => push !in s.pushes && NoWrap(Request(push, msg, start, end))
    case SendNext(push, draw, call) => push in s.loops && draw <= FACTOR && call !in s.history && Choosable(s.daemon)
    case SendAgain(failed, draw, call) =>
      failed in s.resends && draw <= FACTOR && call !in s.history && Choosable(s.daemon)
    case Acknowledge(call) => call in s.calls && s.calls[call].phase == Flying
    case Refuse(call) => call in s.calls && s.calls[call].phase == Flying
    case Charge(call) => call in s.calls && s.calls[call].phase == Flying
    case GiveUp(call) => call in s.calls && s.calls[call].phase == Charged
  }

  /** The rest of a loop goes back to its handler, unless the loop is finished. */
  function PutBack(m: map<nat, Request>, k: nat, r: Request): map<nat, Request> {
    if Pending(r) then m[k := r] else m - {k}
  }

  function Started(s: System, svrId: nat, chunk: Request, call: nat): System {
    s.(daemon := Dispatched(s.daemon, svrId),
       calls := s.calls[call := Call(svrId, chunk, Flying)],
       history := s.history[call := chunk])
  }

  function Finished(s: System, call: nat): System
    requires call in s.calls
  {
    s.(daemon := Decreased(s.daemon, s.calls[call].svrId), calls := s.calls - {call})
  }

  ghost function Step(s: System, e: Event): System
    requires Enabled(s, e)
  {
    match e
    case Register(random, procName, now) =>
      var id := NewId(s.daemon, random);
      s.(daemon := Registered(s.daemon, random, procName, now),
         inherited := s.inherited[id := |CallsOn(s.calls, id)|],
         registrations := s.registrations + 1)
    case LoadScore(svrId, score) => s.(daemon := Scored(s.daemon, svrId, score))
    case Beat(svrId, now) => s.(daemon := Beaten(s.daemon, svrId, now))
    case Sweep(now) => s.(daemon := Swept(s.daemon, now))
    case Timer => s.(daemon := Rebalanced(s.daemon))
    case BeginPush(push, msg, start, end) =>
      var r := Request(push, msg, start, end);
      s.(pushes := s.pushes[push := r], loops := PutBack(s.loops, push, r))
    case SendNext(push, draw, call) =>
      var r := s.loops[push];
      (match Choose(s.daemon, draw)
       case Wait => s
       case Send(svrId) => Started(s, svrId, First(r), call).(loops := PutBack(s.loops, push, Rest(r))))
    case SendAgain(failed, draw, call) =>
      var r := s.resends[failed];
      (match Choose(s.daemon, draw)
       case Wait => s
       case Send(svrId) => Started(s, svrId, First(r), call).(resends := PutBack(s.resends, failed, Rest(r))))
    case Acknowledge(call) => Finished(s, call).(acked := s.acked + multiset{s.calls[call].chunk})
    case Refuse(call) => Finished(s, call).(resends := s.resends[call := s.calls[call].chunk])
    case Charge(call) =>
      s.(daemon := Failed(s.daemon, s.calls[call].svrId), calls := s.calls[call := s.calls[call].(phase := Charged)])
    case GiveUp(call) => Finished(s, call).(resends := s.resends[call := s.calls[call].chunk])
  }

  ghost predicate Next(s: System, e: Event, s': System) { Enabled(s, e) && s' == Step(s, e) }

  /** states[i + 1] follows from states[i] by events[i]. */
  datatype Run = Run(states: seq<System>, events: seq<Event>)

  ghost predicate IsRun(r: Run) {
    && |r.states| == |r.events| + 1
    && r.states[0] == INITIAL
    && forall i :: 0 <= i < |r.events| ==> Next(r.states[i], r.events[i], r.states[i + 1])
  }

  function Last(r: Run): System
    requires r.states != []
  {
    r.states[|r.states| - 1]
  }

  // ---------- registry and ids ----------

  ghost predicate IdsWithin(d: State, bound: nat) { forall id :: id in d.svrInfo ==> id <= bound }

  /** The daemon's containers are coherent, and ids stay far below 2^64. */
  ghost predicate InvRegistry(s: System) {
    && Coherent(s.daemon)
    && 3 * s.registrations + 1 < U32
    && IdsWithin(s.daemon, INT_MAX + s.registrations)
  }

  lemma NewIdBelow(d: State, bound: nat, random: nat)
    requires IdsWithin(d, bound) && random <= INT_MAX <= bound && bound + 1 < U64
    ensures d.svrInfo != map[] ==> Max(d.svrInfo.Keys) + 1 < U64
    ensures NewId(d, random) <= bound + 1
  {
    if d.svrInfo != map[] {
      var m := Max(d.svrInfo.Keys);
      assert m in d.svrInfo;
    }
  }

  /** Registration adds one idle producer under an id nobody holds. */
  ghost predicate Enrolls(d: State, id: nat, d': State) {
    && id !in d.producers
    && d'.producers == d.producers[id := ProducerState(0, 0)]
    && d'.idle == d.idle + {id}
    && d'.sendingCount == d.sendingCount
  }

  lemma EnrollsWithin(d: State, id: nat, d': State, bound: nat)
    requires Coherent(d) && Coherent(d') && Enrolls(d, id, d') && IdsWithin(d, bound) && id <= bound + 1
    ensures IdsWithin(d', bound + 1)
  {
    assert d'.svrInfo.Keys == d.svrInfo.Keys + {id};
  }

  lemma RegisterDaemon(d: State, bound: nat, random: nat, now: int)
    requires Coherent(d) && IdsWithin(d, bound) && random <= INT_MAX <= bound && bound + 1 < U64
    ensures var d' := Registered(d, random, PRODUCER, now);
            Coherent(d') && Enrolls(d, NewId(d, random), d') && IdsWithin(d', bound + 1)
  {
    NewIdBelow(d, bound, random);
    RegisterCoherent(d, random, now);
    EnrollsWithin(d, NewId(d, random), Registered(d, random, PRODUCER, now), bound);
  }

  lemma RegistryStep(s: System, e: Event)
    requires InvRegistry(s) && Enabled(s, e)
    ensures InvRegistry(Step(s, e))
  {
    hide Consistent, NamesOnce, Registered, Swept, Rebalanced, Failed, Decreased, Dispatched;
    var d := s.daemon;
    match e
    case Register(random, _, now) => RegisterDaemon(d, INT_MAX + s.registrations, random, now);
    case LoadScore(svrId, score) => ScoreCoherent(d, svrId, score);
    case Beat(svrId, now) => BeatCoherent(d, svrId, now);
    case Sweep(now) => SweepIsRestriction(d, now);
    case Timer => RebalanceCoherent(d);
    case BeginPush(_, _, _, _) =>
    case SendNext(_, draw, _) => SendRegistry(d, draw);
    case SendAgain(_, draw, _) => SendRegistry(d, draw);
    case Acknowledge(call) => DecreaseRegistry(d, s.calls[call].svrId);
    case Refuse(call) => DecreaseRegistry(d, s.calls[call].svrId);
    case GiveUp(call) => DecreaseRegistry(d, s.calls[call].svrId);
    case Charge(call) => ChargeRegistry(d, s.calls[call].svrId);
  }

  lemma SendRegistry(d: State, draw: nat)
    requires Coherent(d) && draw <= FACTOR
    ensures Choosable(d)
    ensures Choose(d, draw).Send? ==>
              var id := Choose(d, draw).svrId;
              id in d.producers && Coherent(Dispatched(d, id)) && Dispatched(d, id).svrInfo == d.svrInfo
  {
    ChoiceIsLive(d, draw);
    if Choose(d, draw).Send? { DispatchCoherent(d, Choose(d, draw).svrId); }
  }

  lemma DecreaseRegistry(d: State, id: nat)
    requires Coherent(d)
    ensures Coherent(Decreased(d, id)) && Decreased(d, id).svrInfo == d.svrInfo
  {
    DecreaseCoherent(d, id);
  }

  /** What counting a failure can do: nothing, raise the count, or remove the producer. */
  lemma ChargeRegistry(d: State, id: nat)
    requires Coherent(d)
    ensures Coherent(Failed(d, id))
    ensures var d' := Failed(d, id);
            d' == if id !in d.producers then d
                  else if d.producers[id].failCount == FAIL_COUNT_LIMIT then Dropped(d, id).(rank := d'.rank)
                  else d.(producers := d.producers[id := d.producers[id].(failCount := d.producers[id].failCount + 1)])
  {
    if id in d.producers {
      if d.producers[id].failCount == FAIL_COUNT_LIMIT { BreakCoherent(d, id); } else { CountFailCoherent(d, id); }
    }
  }
}
