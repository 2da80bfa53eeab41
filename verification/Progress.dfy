/** When the daemon can go on: what ends a wait, and the steps that finish a push. */
module Progress {
  import opened Words
  import opened OrderedKeys
  import opened LoadBalance
  import opened Scheduler
  import opened Chunking
  import opened PushSystem
  import opened FlowControl
  import opened Conservation
  import opened PushTheorems

  // ---------- waiting ----------

  /** A call is done with, or a producer registers. */
  predicate Frees(e: Event) { e.Acknowledge? || e.Refuse? || e.GiveUp? || e.Register? }

  lemma ShrunkWaits(d: State, d': State, registrations: nat)
    requires Waits(d) && |d.producers| <= registrations && 3 * registrations + 1 < U32
    requires d'.idle <= d.idle && d'.producers.Keys <= d.producers.Keys && d'.sendingCount == d.sendingCount
    ensures Waits(d')
  {
    ShrinkFlow(d, d');
    assert d'.idle == {};
    var n, n' := |d.producers|, |d'.producers|;
    assert n % U32 == n && n' % U32 == n' && 3 * n % U32 == 3 * n && 3 * n' % U32 == 3 * n';
  }

  /** Nothing but a finished call or a registration ends a wait; removals do not. */
  lemma WaitStep(s: System, e: Event)
    requires Inv(s) && Enabled(s, e) && Waits(s.daemon) && !Frees(e)
    ensures Waits(Step(s, e).daemon) && Step(s, e).calls.Keys == s.calls.Keys
  {
    hide Swept, Rebalanced, Failed, Consistent, NamesOnce, InvAccount, InvPlaces, HasRoom;
    var d, d' := s.daemon, Step(s, e).daemon;
    match e
    case LoadScore(svrId, score) => ScoreCoherent(d, svrId, score); ShrunkWaits(d, d', s.registrations);
    case Beat(svrId, now) => ShrunkWaits(d, d', s.registrations);
    case Sweep(now) => SweepShrinks(d, now); ShrunkWaits(d, d', s.registrations);
    case Timer => RebalanceCoherent(d); ShrunkWaits(d, d', s.registrations);
    case BeginPush(_, _, _, _) =>
    case SendNext(_, draw, _) => WaitsIffChoice(d, draw);
    case SendAgain(_, draw, _) => WaitsIffChoice(d, draw);
    case Charge(call) => ChargeShrinks(d, s.calls[call].svrId); ShrunkWaits(d, d', s.registrations);
  }

  /** A daemon that waits goes on waiting, with the same calls open, as long as no call is
      done with and no producer registers. */
  lemma {:induction false} WaitPersists(r: Run, m: nat, n: nat)
    requires IsRun(r) && m <= n <= |r.events| && Waits(r.states[m].daemon)
    requires forall i :: m <= i < n ==> !Frees(r.events[i])
    ensures Waits(r.states[n].daemon) && r.states[n].calls.Keys == r.states[m].calls.Keys
    decreases n
  {
    hide Inv, Step, Enabled, Waits;
    if m < n {
      WaitPersists(r, m, n - 1);
      EnterState(r, n);
      WaitStep(r.states[n - 1], r.events[n - 1]);
    }
  }

  // ---------- the steps that finish a push ----------

  /** Chunks that have not been acknowledged yet. */
  ghost function Unacked(s: System): nat
    requires InvPlaces(s)
  {
    assert |Held(s)| == |Gather(s.loops) + Gather(s.resends) + Gather(InFlight(s.calls))| + |s.acked|;
    |Gather(s.pushes)| - |s.acked|
  }

  /** What the steps below keep. */
  ghost predicate Steady(s: System, s': System) {
    s'.pushes == s.pushes && (s.daemon.producers != map[] ==> s'.daemon.producers != map[])
  }

  lemma AcknowledgeStep(s: System, call: nat)
    requires Inv(s) && Enabled(s, Acknowledge(call)) && Inv(Step(s, Acknowledge(call)))
    ensures var s' := Step(s, Acknowledge(call));
            Steady(s, s') && Unacked(s') < Unacked(s) && s'.calls == s.calls - {call}
  {
    hide InvRegistry, InvFlow, InvAccount, Gather, WellPlaced;
    DecreaseKeepsProducers(s.daemon, s.calls[call].svrId);
  }

  /** A sweep at the time of a producer's latest sign of life keeps it and clears its failures. */
  lemma SweepStep(s: System, id: nat)
    requires Inv(s) && id in s.daemon.svrInfo
    ensures var s' := Step(s, Sweep(s.daemon.svrInfo[id].timestamp));
            s' == s.(daemon := s'.daemon) && id in s'.daemon.producers && s'.daemon.producers[id].failCount == 0
  {
    hide Swept, Consistent, NamesOnce, InvFlow, InvAccount, InvPlaces;
    SweepIsRestriction(s.daemon, s.daemon.svrInfo[id].timestamp);
  }

  /** One more failure does not remove a producer without any. */
  lemma ChargeStep(s: System, call: nat, id: nat)
    requires Inv(s) && Enabled(s, Charge(call)) && id in s.daemon.producers && s.daemon.producers[id].failCount == 0
    ensures var s' := Step(s, Charge(call));
            && id in s'.daemon.producers && s'.calls == s.calls[call := s.calls[call].(phase := Charged)]
            && s' == s.(daemon := s'.daemon, calls := s'.calls)
  {
    hide Failed, Consistent, NamesOnce, InvFlow, InvAccount, InvPlaces;
    ChargeRegistry(s.daemon, s.calls[call].svrId);
  }

  lemma DecreaseKeepsProducers(d: State, id: nat)
    ensures d.producers != map[] ==> Decreased(d, id).producers != map[]
  {
    if id in d.producers { assert id in Decreased(d, id).producers; }
  }

  lemma GiveUpStep(s: System, call: nat)
    requires Inv(s) && Enabled(s, GiveUp(call)) && Inv(Step(s, GiveUp(call)))
    ensures var s' := Step(s, GiveUp(call));
            Steady(s, s') && Unacked(s') == Unacked(s) && |s'.calls| < |s.calls|
  {
    hide InvRegistry, InvFlow, InvAccount, Gather, WellPlaced;
    DecreaseKeepsProducers(s.daemon, s.calls[call].svrId);
    RemoveOne(s.calls, call);
  }

  lemma FreshCall(history: map<nat, Request>) returns (call: nat)
    ensures call !in history
  {
    call := 0;
    if history != map[] {
      call := Max(history.Keys) + 1;
      assert call !in history.Keys;
    }
  }

  /** With a live producer and no open call a pass sends. */
  lemma SendsWhenFree(s: System)
    requires Inv(s) && s.calls == map[] && s.daemon.producers != map[]
    ensures Choosable(s.daemon) && Choose(s.daemon, 0).Send?
  {
    hide Consistent, NamesOnce, InvAccount, InvPlaces;
    ChoiceIsLive(s.daemon, 0);
    if Choose(s.daemon, 0).Wait? { WaitMeansBusy(s.daemon, s.registrations); }
  }

  predicate Sends(e: Event) { (e.SendNext? || e.SendAgain?) && e.draw == 0 }

  lemma SendStep(s: System, e: Event)
    requires Inv(s) && Enabled(s, e) && Sends(e) && Inv(Step(s, e))
    requires s.calls == map[] && Choose(s.daemon, 0).Send?
    ensures var s' := Step(s, e);
            Steady(s, s') && Unacked(s') == Unacked(s) && s'.calls.Keys == {e.call} && s'.calls[e.call].phase == Flying
  {
    hide Inv, Gather, Choose, First, Rest, Dispatched, Held, WellPlaced, Choosable;
    InvGivesPlaces(s);
    InvGivesPlaces(Step(s, e));
    DispatchKeepsProducers(s.daemon, Choose(s.daemon, 0).svrId);
  }

  lemma DispatchKeepsProducers(d: State, id: nat)
    ensures Dispatched(d, id).producers != map[]
  {
    assert id in Dispatched(d, id).producers;
  }

  lemma InvGivesPlaces(s: System)
    requires Inv(s)
    ensures InvPlaces(s)
  {
  }

  lemma SteadyChain(a: System, b: System, c: System)
    requires Steady(a, b) && Steady(b, c)
    ensures Steady(a, c)
  {
  }

  ghost predicate AllSettled(s: System) { forall p :: p in s.pushes ==> Settled(s, p) }

  lemma NothingLeft(s: System)
    requires s.calls == map[] && s.loops == map[] && s.resends == map[]
    ensures AllSettled(s)
  {
  }
}
