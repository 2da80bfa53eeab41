/** What the records of the state machine have to do with the events of a run: which request
    a push is, which call carries what and went where, and what the counters count. */
module History {
  import opened OrderedKeys
  import opened LoadBalance
  import opened Scheduler
  import opened Chunking
  import opened PushSystem
  import opened FlowControl
  import opened Conservation
  import opened PushTheorems

  // ---------- every call carries a chunk of its push ----------

  /** Every call ever started carries a chunk of its push. */
  ghost predicate HistoryInv(s: System) {
    forall c :: c in s.history ==> FromPush(s, s.history[c])
  }

  ghost predicate FromPush(s: System, chunk: Request) {
    && chunk.push in s.pushes
    && NoWrap(s.pushes[chunk.push])
    && chunk in Split(s.pushes[chunk.push])
  }

  lemma InFlightFromPush(s: System, call: nat)
    requires InvPlaces(s) && call in s.calls
    ensures FromPush(s, s.calls[call].chunk)
  {
    hide Split, NoWrap;
    var c := s.calls[call].chunk;
    InFlightRemove(s.calls, call);
    assert c in Gather(InFlight(s.calls));
    assert c in Held(s);
    assert Gather(s.pushes)[c] > 0;
    GatherCount(s.pushes, c);
  }

  /** The chunk of a call does not change, and a new call is in flight. */
  ghost predicate Traces(s: System, s': System) {
    && (forall c :: c in s.history ==> c in s'.history && s'.history[c] == s.history[c])
    && (forall c :: c in s'.history && c !in s.history ==> c in s'.calls && s'.calls[c].chunk == s'.history[c])
    && (forall p :: p in s.pushes ==> p in s'.pushes && s'.pushes[p] == s.pushes[p])
  }

  lemma DaemonTrace(s: System, e: Event)
    requires Enabled(s, e)
    ensures Traces(s, Step(s, e))
    ensures Step(s, e).acked == if e.Acknowledge? then s.acked + multiset{s.calls[e.call].chunk} else s.acked
  {
    hide Choose, Registered, Swept, Rebalanced, Failed, Dispatched, Decreased, NewId, Advance, ChunkEnd;
  }

  lemma HistoryStep(s: System, e: Event)
    requires Inv(s) && Enabled(s, e) && HistoryInv(s)
    ensures Inv(Step(s, e)) && HistoryInv(Step(s, e))
  {
    hide Step, Enabled, InvRegistry, InvFlow, InvAccount, Split, NoWrap, InvPlaces;
    InvStep(s, e);
    DaemonTrace(s, e);
    var s' := Step(s, e);
    forall c | c in s'.history ensures FromPush(s', s'.history[c]) {
      if c in s.history { assert FromPush(s, s.history[c]); } else { InFlightFromPush(s', c); }
    }
  }

  lemma {:induction false} HistoryHolds(r: Run, n: nat)
    requires IsRun(r) && n <= |r.events|
    ensures HistoryInv(r.states[n]) && Inv(r.states[n])
  {
    hide Inv, Step, Enabled, FromPush;
    InvHolds(r, n);
    if n > 0 {
      HistoryHolds(r, n - 1);
      EnterState(r, n);
      HistoryStep(r.states[n - 1], r.events[n - 1]);
    }
  }

  // ---------- which request a push is ----------

  /** The request of a BeginPush event. */
  function Asked(e: Event): Request
    requires e.BeginPush?
  {
    Request(e.push, e.msg, e.start, e.end)
  }

  lemma PushStep(s: System, e: Event)
    requires Enabled(s, e)
    ensures var s' := Step(s, e);
            s'.pushes == if e.BeginPush? then s.pushes[e.push := Asked(e)] else s.pushes
    ensures e.BeginPush? ==> e.push !in s.pushes
  {
    hide Choose, Registered, Swept, Rebalanced, Failed, Dispatched, Decreased, NewId, First, Rest;
  }

  /** A push stays the request that was received for it. */
  lemma {:induction false} PushIsAsked(r: Run, m: nat, n: nat)
    requires IsRun(r) && m < n <= |r.events| && r.events[m].BeginPush?
    ensures r.events[m].push in r.states[n].pushes
    ensures r.states[n].pushes[r.events[m].push] == Asked(r.events[m])
    decreases n
  {
    hide Inv, Step, Enabled;
    EnterState(r, n);
    PushStep(r.states[n - 1], r.events[n - 1]);
    if m < n - 1 { PushIsAsked(r, m, n - 1); }
  }

  /** Every known push was asked for. */
  lemma {:induction false} PushWasAsked(r: Run, n: nat, push: nat) returns (m: nat)
    requires IsRun(r) && n <= |r.events| && push in r.states[n].pushes
    ensures m < n && r.events[m].BeginPush? && r.events[m].push == push
    ensures r.states[n].pushes[push] == Asked(r.events[m])
  {
    hide Inv, Step, Enabled;
    if n > 0 {
      EnterState(r, n);
      PushStep(r.states[n - 1], r.events[n - 1]);
      if push in r.states[n - 1].pushes { m := PushWasAsked(r, n - 1, push); } else { m := n - 1; }
    }
  }

  /** Every call ever started sends a part of the range, and the message, that one BeginPush
      asked for. */
  lemma CallWasAsked(r: Run, n: nat, call: nat) returns (m: nat)
    requires IsRun(r) && n <= |r.events| && call in r.states[n].history
    ensures m < n && r.events[m].BeginPush?
    ensures var c, e := r.states[n].history[call], r.events[m];
            c.push == e.push && c.msg == e.msg && e.start <= c.start <= c.end <= e.end
  {
    hide Inv, Step, Enabled, Split, NoWrap;
    HistoryHolds(r, n);
    var c := r.states[n].history[call];
    assert FromPush(r.states[n], c);
    m := PushWasAsked(r, n, c.push);
    SplitShape(Asked(r.events[m]));
    var i :| 0 <= i < |Split(Asked(r.events[m]))| && Split(Asked(r.events[m]))[i] == c;
    assert c == ChunkAt(Asked(r.events[m]), i) && Pending(c);
  }

  // ---------- where a call goes ----------

  predicate Sends(e: Event) { e.SendNext? || e.SendAgain? }

  /** What the handler of a sending pass still has to send. */
  function Waiting(s: System, e: Event): Request
    requires Sends(e)
    requires if e.SendNext? then e.push in s.loops else e.failed in s.resends
  {
    if e.SendNext? then s.loops[e.push] else s.resends[e.failed]
  }

  /** The first uids of a request, at most 4096. */
  predicate FirstPart(chunk: Request, r: Request) {
    && chunk.push == r.push && chunk.msg == r.msg && chunk.start == r.start
    && chunk.end == if r.start + 4095 < r.end then r.start + 4095 else r.end
  }

  lemma FirstIsPart(r: Request)
    requires NoWrap(r) && Pending(r)
    ensures FirstPart(First(r), r)
  {
    NoWrapStep(r);
  }

  lemma WaitingPending(s: System, e: Event)
    requires InvPlaces(s) && Enabled(s, e) && Sends(e)
    ensures NoWrap(Waiting(s, e)) && Pending(Waiting(s, e))
  {
    if e.SendAgain? { Resplit(s.resends[e.failed]); }
  }

  /** The pass has started one call, to svrId, with the first part of what is left. */
  predicate OneStarted(s: System, s': System, e: Event, svrId: nat)
    requires Sends(e)
    requires if e.SendNext? then e.push in s.loops else e.failed in s.resends
  {
    && e.call !in s.calls && e.call in s'.calls
    && s'.calls == s.calls[e.call := s'.calls[e.call]]
    && s'.calls[e.call].svrId == svrId && s'.calls[e.call].phase == Flying
    && FirstPart(s'.calls[e.call].chunk, Waiting(s, e))
  }

  /** A pass in any run: if the choice is to wait nothing changes; otherwise the first part of
      what its handler has left goes, as a new call, to the server chosen, which is the idle
      one with the smallest id if any is idle. */
  lemma SendFollowsChoice(r: Run, n: nat)
    requires IsRun(r) && n < |r.events| && Sends(r.events[n])
    ensures var s, e := r.states[n], r.events[n];
            && Enabled(s, e)
            && (Choose(s.daemon, e.draw).Wait? ==> r.states[n + 1] == s)
            && (Choose(s.daemon, e.draw).Send? ==> OneStarted(s, r.states[n + 1], e, Choose(s.daemon, e.draw).svrId))
            && (s.daemon.idle != {} ==> IsSmallestIdle(s.daemon, Choose(s.daemon, e.draw)))
  {
    hide Inv, Choose, OneStarted, IsSmallestIdle, Step;
    var s, e := r.states[n], r.events[n];
    EnterState(r, n + 1);
    InvKnown(s);
    IdleFirst(s, e.draw);
    SendStepFollows(s, e);
  }

  lemma InvKnown(s: System)
    requires Inv(s)
    ensures InvRegistry(s) && InvPlaces(s)
  {
  }

  ghost predicate IsSmallestIdle(d: State, c: Choice) { c.Send? && c.svrId in d.idle && AtLeast(c.svrId, d.idle) }

  lemma SendStepFollows(s: System, e: Event)
    requires InvPlaces(s) && Enabled(s, e) && Sends(e)
    ensures Choose(s.daemon, e.draw).Wait? ==> Step(s, e) == s
    ensures Choose(s.daemon, e.draw).Send? ==> OneStarted(s, Step(s, e), e, Choose(s.daemon, e.draw).svrId)
  {
    hide Choose, Dispatched, NoWrap, First, Rest, FirstPart, Held, Gather;
    WaitingPending(s, e);
    FirstIsPart(Waiting(s, e));
  }

  lemma IdleFirst(s: System, draw: nat)
    requires InvRegistry(s) && draw <= FACTOR
    ensures Choosable(s.daemon)
    ensures s.daemon.idle != {} ==> IsSmallestIdle(s.daemon, Choose(s.daemon, draw))
  {
    ChoiceIsLive(s.daemon, draw);
  }

  // ---------- what the counters count ----------

  /** How many of the first n events are registrations. */
  function Registrations(r: Run, n: nat): nat
    requires n <= |r.events|
  {
    if n == 0 then 0 else Registrations(r, n - 1) + if r.events[n - 1].Register? then 1 else 0
  }

  lemma {:induction false} RegistrationsCounted(r: Run, n: nat)
    requires IsRun(r) && n <= |r.events|
    ensures r.states[n].registrations == Registrations(r, n)
  {
    hide Inv, Step, Enabled;
    if n > 0 {
      EnterState(r, n);
      RegistrationsStep(r.states[n - 1], r.events[n - 1]);
      RegistrationsCounted(r, n - 1);
    }
  }

  /** The flow bound in terms of the events: sendingCount and the idle producers together stay
      within three per registration plus one, and every id within the number of registrations
      of the largest random one. */
  lemma FlowBoundByEvents(r: Run, n: nat)
    requires IsRun(r) && n <= |r.events|
    ensures r.states[n].daemon.sendingCount + |r.states[n].daemon.idle| <= 3 * Registrations(r, n) + 1
    ensures forall id :: id in r.states[n].daemon.svrInfo ==> id <= 0x7fff_ffff + Registrations(r, n)
  {
    FlowBound(r, n);
    InvHolds(r, n);
    RegistrationsCounted(r, n);
  }

  /** The latest registration of id before state n is event m. */
  ghost predicate RegisteredAt(r: Run, m: nat, n: nat, id: nat)
    requires IsRun(r) && m < n <= |r.events|
  {
    Registers(r.states[m], r.events[m], id) && forall i :: m < i < n ==> !Registers(r.states[i], r.events[i], id)
  }

  lemma InheritedStep(s: System, e: Event, id: nat)
    requires Inv(s) && Enabled(s, e) && id in Step(s, e).daemon.producers
    ensures if Registers(s, e, id) then id in Step(s, e).inherited && Step(s, e).inherited[id] == |CallsOn(s.calls, id)|
            else id in s.inherited ==> id in Step(s, e).inherited && Step(s, e).inherited[id] == s.inherited[id]
    ensures Registers(s, e, id) || id in s.daemon.producers
  {
    hide Swept, Rebalanced, Failed, Registered, NewId, Consistent, NamesOnce, InvFlow, InvAccount, InvPlaces;
    OnlyRegisterAdds(s, e);
  }

  lemma {:induction false} InheritedAtRegistration(r: Run, n: nat, id: nat) returns (m: nat)
    requires IsRun(r) && n <= |r.events| && id in r.states[n].daemon.producers
    ensures m < n && RegisteredAt(r, m, n, id)
    ensures id in r.states[n].inherited && r.states[n].inherited[id] == |CallsOn(r.states[m].calls, id)|
  {
    hide Inv, Step, Enabled, Registers, CallsOn;
    if n > 0 {
      EnterState(r, n);
      InheritedStep(r.states[n - 1], r.events[n - 1], id);
      if Registers(r.states[n - 1], r.events[n - 1], id) {
        m := n - 1;
      } else {
        m := InheritedAtRegistration(r, n - 1, id);
      }
    }
  }

  /** The accounting law told from the events: a live producer's task count equals the calls
      that carry its id if and only if no open call did when it registered; and then it is
      idle exactly when it has no call. */
  lemma CountExactIffFreshId(r: Run, n: nat, id: nat) returns (m: nat)
    requires IsRun(r) && n <= |r.events| && id in r.states[n].daemon.producers
    ensures m < n && RegisteredAt(r, m, n, id)
    ensures var s, isFresh := r.states[n], CallsOn(r.states[m].calls, id) == {};
            && (s.daemon.producers[id].curTaskCount == |CallsOn(s.calls, id)| <==> isFresh)
            && (isFresh ==> (id in s.daemon.idle <==> CallsOn(s.calls, id) == {}))
  {
    hide CallsOn, RegisteredAt, Inv, Next;
    m := InheritedAtRegistration(r, n, id);
    TaskCountExact(r, n, id);
  }

  /** How many of the first n events are SUCCESS replies to calls with this chunk. */
  ghost function Replies(r: Run, n: nat, c: Request): nat
    requires IsRun(r) && n <= |r.events|
  {
    if n == 0 then 0
    else Replies(r, n - 1, c) + if RepliesTo(r.states[n - 1], r.events[n - 1], c) then 1 else 0
  }

  predicate RepliesTo(s: System, e: Event, c: Request) {
    e.Acknowledge? && e.call in s.calls && s.calls[e.call].chunk == c
  }

  /** A chunk counts as acknowledged as often as a SUCCESS reply to a call with it arrived;
      since no chunk is lost or duplicated, that is at most once, and once exactly when the
      chunk is nowhere else. */
  lemma {:induction false} AckedIsReplied(r: Run, n: nat, c: Request)
    requires IsRun(r) && n <= |r.events|
    ensures r.states[n].acked[c] == Replies(r, n, c) <= 1
  {
    hide Inv, Step, Enabled, Gather;
    AtMostOnce(r, n, c);
    if n > 0 {
      EnterState(r, n);
      DaemonTrace(r.states[n - 1], r.events[n - 1]);
      AckedIsReplied(r, n - 1, c);
      AcknowledgesOpen(r.states[n - 1], r.events[n - 1]);
    }
  }

  lemma AtMostOnce(r: Run, n: nat, c: Request)
    requires IsRun(r) && n <= |r.events|
    ensures r.states[n].acked[c] <= 1
  {
    hide Gather, Split, NoWrap;
    NoChunkLost(r, n, c);
  }

  lemma AcknowledgesOpen(s: System, e: Event)
    requires Enabled(s, e)
    ensures e.Acknowledge? ==> e.call in s.calls
  {
  }

  // ---------- what can happen ----------

  /** The daemon never refuses what its environment does: in every reachable state any
      heartbeat, positive score, sweep, timer and new push whose loop ends is possible, and a
      registration as long as the 32-bit counters suffice; every handler that has something to
      send can make a pass with any of the 10001 draws; and exactly the open calls without a
      completion can be answered, refused or fail, those charged with a failure be given up. */
  lemma WhatCanHappen(r: Run, n: nat)
    requires IsRun(r) && n <= |r.events|
    ensures var s := r.states[n];
            && (forall random, now :: Enabled(s, Register(random, PRODUCER, now)) <==>
                  random < 0x8000_0000 && 3 * s.registrations + 4 < 0x1_0000_0000)
            && (forall id, score :: Enabled(s, LoadScore(id, score)) <==> score > 0.0)
            && (forall id, now :: Enabled(s, Beat(id, now))) && (forall now :: Enabled(s, Sweep(now))) && Enabled(s, Timer)
            && (forall e: Event :: e.BeginPush? ==> (Enabled(s, e) <==> e.push !in s.pushes && NoWrap(Asked(e))))
    ensures var s := r.states[n];
            && (forall push, draw, call ::
                  Enabled(s, SendNext(push, draw, call)) <==> push in s.loops && draw < 10001 && call !in s.history)
            && (forall failed, draw, call ::
                  Enabled(s, SendAgain(failed, draw, call)) <==>
                    failed in s.resends && draw < 10001 && call !in s.history)
            && (forall call ::
                  && (Enabled(s, Acknowledge(call)) <==> call in s.calls && s.calls[call].phase == Flying)
                  && (Enabled(s, Refuse(call)) <==> call in s.calls && s.calls[call].phase == Flying)
                  && (Enabled(s, Charge(call)) <==> call in s.calls && s.calls[call].phase == Flying)
                  && (Enabled(s, GiveUp(call)) <==> call in s.calls && s.calls[call].phase == Charged))
  {
    hide Consistent, NamesOnce, InvFlow, InvAccount, InvPlaces, Choose, Next;
    InvHolds(r, n);
    ChoiceIsLive(r.states[n].daemon, 0);
  }

  // ---------- exactly when a producer is removed ----------

  /** Stale: more than 10 seconds since the latest registration or heartbeat. */
  ghost predicate Stale(r: Run, n: nat, id: nat, now: int)
    requires IsRun(r) && n <= |r.events|
  {
    now - LatestInfo(r, n, id).timestamp > 10
  }

  /** A live producer is removed by an event if and only if that is a sweep more than 10
      seconds after its latest sign of life, or the 51st failure charged to it in its
      registration and sweep period. */
  lemma RemovedIff(r: Run, n: nat, id: nat)
    requires IsRun(r) && n < |r.events| && id in r.states[n].daemon.producers
    ensures var s, e := r.states[n], r.events[n];
            id !in r.states[n + 1].daemon.producers <==>
              (e.Sweep? && Stale(r, n, id, e.now)) || (Charges(s, e, id) && ChargedSince(r, n + 1, id) == 51)
  {
    hide Inv, Step, Enabled;
    var s, e := r.states[n], r.events[n];
    EnterState(r, n + 1);
    if id !in r.states[n + 1].daemon.producers {
      RemovalCauses(r, n, id);
    } else {
      KeysKnown(s, id);
      InfoIsLatest(r, n, id);
      FailCountIsCharged(r, n, id);
      SurvivesIf(s, e, id);
    }
  }

  lemma KeysKnown(s: System, id: nat)
    requires Inv(s) && id in s.daemon.producers
    ensures id in s.daemon.svrInfo
  {
    hide InvFlow, InvAccount, InvPlaces, NamesOnce;
  }

  lemma SurvivesIf(s: System, e: Event, id: nat)
    requires Inv(s) && Enabled(s, e) && id in s.daemon.producers && id in s.daemon.svrInfo
    requires id in Step(s, e).daemon.producers
    ensures e.Sweep? ==> e.now - s.daemon.svrInfo[id].timestamp <= 10
    ensures Charges(s, e, id) ==> s.daemon.producers[id].failCount < 50
  {
    hide Swept, Failed, Consistent, NamesOnce, InvFlow, InvAccount, InvPlaces;
    if e.Sweep? { SweepIsRestriction(s.daemon, e.now); }
    if Charges(s, e, id) { ChargeRegistry(s.daemon, id); FailCountWithin(s.daemon, id); }
  }

  lemma FailCountWithin(d: State, id: nat)
    requires Coherent(d) && id in d.producers
    ensures d.producers[id].failCount <= 50
  {
  }
}
