/** Calls whose handler returned on a Redis error: no reply is ever sent for them. */
module LostCalls {
  import opened Chunking
  import opened Producer
  import opened Redis
  import opened History
  import opened Delivery
  import D = Scheduler
  import P = PushSystem
  import T = PushTheorems
  import C = CacheProtocol
  import S = SendSession
  import L = Progress

  lemma EnterWorld(r: Run, n: nat)
    requires IsRun(r) && 0 < n <= |r.events|
    ensures Inv(r.states[n - 1]) && Enabled(r.states[n - 1], r.events[n - 1])
    ensures r.states[n] == Step(r.states[n - 1], r.events[n - 1])
  {
    hide Inv, Step, Enabled, Starts;
    InvHolds(r, n - 1);
    assert Next(r.states[n - 1], r.events[n - 1], r.states[n - 1 + 1]);
  }

  lemma AnswersSuccess(w: World, call: nat)
    requires HandlerInv(w)
    ensures Answer(w, call).Some? ==> Answer(w, call) == Some(S.SUCCESS)
    ensures !Enabled(w, Daemon(P.Refuse(call)))
  {
    hide P.Enabled;
    if call in w.handlers { assert Serves(w.handlers[call], w.daemon.history[call]); }
  }

  /** The reply holds ERR until the countdown ends and SUCCESS when it is sent, so the ERR
      branch of the daemon never runs. */
  lemma NeverRefused(r: Run, n: nat, call: nat)
    requires IsRun(r) && n < |r.events|
    ensures r.events[n] != Daemon(P.Refuse(call))
  {
    hide Step, Enabled, P.Enabled, P.Step, T.Inv, C.Inv, HistoryInv, AckInv, CallInv;
    EnterWorld(r, n + 1);
    if r.events[n] == Daemon(P.Refuse(call)) { AnswersSuccess(r.states[n], call); }
  }

  /** What one event of the daemon does to a call that has been started. */
  lemma CallStep(s: P.System, e: P.Event, call: nat)
    requires P.Enabled(s, e) && call in s.history
    ensures var s' := P.Step(s, e);
            && (call in s'.calls <==>
                  call in s.calls && e != P.Acknowledge(call) && e != P.Refuse(call) && e != P.GiveUp(call))
            && (call in s'.calls ==>
                  (s'.calls[call].phase == P.Flying <==> s.calls[call].phase == P.Flying && e != P.Charge(call)))
  {
    hide D.Choose, D.Registered, D.Swept, D.Rebalanced, D.Failed, D.Dispatched, D.Decreased, D.NewId, Advance, ChunkEnd;
  }

  ghost predicate LostFor(w: World, call: nat) { call in w.lost && call in w.daemon.history && call !in w.handlers }

  lemma LostStep(w: World, e: Event, call: nat)
    requires Inv(w) && Enabled(w, e) && LostFor(w, call)
    ensures LostFor(Step(w, e), call) && Answer(w, call) == None
    ensures var s, s' := w.daemon, Step(w, e).daemon;
            && (call in s'.calls <==> call in s.calls && e != Daemon(P.GiveUp(call)))
            && (call in s'.calls ==>
                  (s'.calls[call].phase == P.Flying <==>
                    s.calls[call].phase == P.Flying && e != Daemon(P.Charge(call))))
  {
    hide P.Step, P.Enabled, T.Inv, C.Inv, C.Step, C.Enabled, S.Step, S.Enabled, S.Begin, Pushed, HistoryInv, HandlerInv,
         AckInv;
    if e.Daemon? {
      DaemonTrace(w.daemon, e.d);
      CallStep(w.daemon, e.d, call);
    }
  }

  // ---------- who is lost ----------

  /** The call's handler is at work on the cache, sends, or has given up. */
  predicate Entered(w: World, call: nat) { call in w.cache.places || call in w.handlers || call in w.lost }

  /** A call that has reached its handler stays in one of these places, so no handler leaves
      without having read its range or being counted as lost. */
  lemma {:induction false} EnteredStays(r: Run, m: nat, n: nat, call: nat)
    requires IsRun(r) && m < n <= |r.events| && r.events[m] == Cache(C.AskExists(call))
    ensures Entered(r.states[n], call)
    decreases n
  {
    hide Inv, Starts, Step, Enabled, Entered;
    EnterWorld(r, n);
    if m < n - 1 { EnteredStays(r, m, n - 1, call); }
    EnteredStep(r.states[n - 1], r.events[n - 1], call);
  }

  lemma EnteredStep(w: World, e: Event, call: nat)
    requires Enabled(w, e) && (Entered(w, call) || e == Cache(C.AskExists(call)))
    ensures Entered(Step(w, e), call)
  {
    hide P.Step, P.Enabled, C.Intersection, Pushed, S.Step, S.Enabled, S.Begin;
  }

  /** Calls are lost for one reason only: their handler returned on a failed command or on an
      empty intersection. */
  lemma {:induction false} LostBecause(r: Run, n: nat, call: nat) returns (m: nat)
    requires IsRun(r) && n <= |r.events| && call in r.states[n].lost
    ensures m < n && r.events[m].Cache? && Returns(r.states[m].cache, r.events[m].c) && r.events[m].c.p == call
  {
    hide Inv, P.Step, P.Enabled, C.Step, C.Enabled, C.Intersection, Pushed, S.Step, S.Enabled, S.Begin;
    if n > 0 {
      EnterWorld(r, n);
      if call in r.states[n - 1].lost { m := LostBecause(r, n - 1, call); } else { m := n - 1; }
    }
  }

  /** From state m to state n this event did not happen. */
  ghost predicate Without(r: Run, m: nat, n: nat, e: Event)
    requires n <= |r.events|
  {
    forall i :: m <= i < n ==> r.events[i] != e
  }

  /** A call whose handler returned on a Redis error stays lost: no handler ever sends for it
      and no reply is ever given. If it was in flight, it is in flight until the daemon is
      told that the connection failed, and leaves through the two failure sections only. */
  lemma {:induction false} LostCallNeedsFailure(r: Run, m: nat, n: nat, call: nat)
    requires IsRun(r) && m <= n <= |r.events| && call in r.states[m].lost
    ensures LostFor(r.states[n], call) && Answer(r.states[n], call) == None
    ensures call in r.states[m].daemon.calls ==>
              (call in r.states[n].daemon.calls <==> Without(r, m, n, Daemon(P.GiveUp(call))))
    ensures var calls, calls' := r.states[m].daemon.calls, r.states[n].daemon.calls;
            call in calls' && call in calls && calls[call].phase == P.Flying ==>
              (calls'[call].phase == P.Flying <==> Without(r, m, n, Daemon(P.Charge(call))))
    decreases n
  {
    hide Inv, Step, Enabled, Starts;
    if m == n {
      InvHolds(r, n);
      assert LostFor(r.states[n], call) by { LostKnown(r.states[n], call); }
    } else {
      LostCallNeedsFailure(r, m, n - 1, call);
      EnterWorld(r, n);
      LostStep(r.states[n - 1], r.events[n - 1], call);
      WithoutStep(r, m, n, Daemon(P.GiveUp(call)));
      WithoutStep(r, m, n, Daemon(P.Charge(call)));
    }
  }

  lemma LostKnown(w: World, call: nat)
    requires Inv(w) && call in w.lost
    ensures LostFor(w, call)
  {
    hide T.Inv, C.Inv, HistoryInv, HandlerInv, AckInv;
  }

  lemma WithoutStep(r: Run, m: nat, n: nat, e: Event)
    requires m < n <= |r.events|
    ensures Without(r, m, n, e) <==> Without(r, m, n - 1, e) && r.events[n - 1] != e
  {
  }

  /** Every open call is lost, or known to have failed. */
  predicate AllDead(w: World) {
    forall c :: c in w.daemon.calls ==> c in w.lost || w.daemon.calls[c].phase == P.Charged
  }

  /** What the daemon would need to go on: a call that failed, or another producer. */
  predicate Relieves(e: Event) { e.Daemon? && (e.d.GiveUp? || e.d.Register?) }

  lemma OpenIsStarted(s: P.System, c: nat)
    requires T.Inv(s) && c in s.calls
    ensures c in s.history
  {
  }

  lemma DeadNotAcknowledged(w: World, call: nat)
    requires Inv(w) && AllDead(w)
    ensures !Enabled(w, Daemon(P.Acknowledge(call)))
  {
    hide T.Inv, C.Inv, HistoryInv, HandlerInv, AckInv;
  }

  lemma StallStep(w: World, e: Event)
    requires Inv(w) && Enabled(w, e) && AllDead(w) && D.Waits(w.daemon.daemon) && !Relieves(e)
    ensures AllDead(Step(w, e)) && D.Waits(Step(w, e).daemon.daemon)
    ensures Step(w, e).daemon.calls.Keys == w.daemon.calls.Keys
  {
    hide P.Step, P.Enabled, T.Inv, C.Inv, C.Step, C.Enabled, S.Step, S.Enabled, S.Begin, Pushed, HistoryInv, HandlerInv,
         AckInv, D.Waits;
    if e.Daemon? {
      if e.d.Acknowledge? { DeadNotAcknowledged(w, e.d.call); }
      if e.d.Refuse? { AnswersSuccess(w, e.d.call); }
      L.WaitStep(w.daemon, e.d);
      forall c | c in Step(w, e).daemon.calls ensures c in w.lost || Step(w, e).daemon.calls[c].phase == P.Charged {
        OpenIsStarted(w.daemon, c);
        CallStep(w.daemon, e.d, c);
      }
    }
  }

  /** Lost replies can stall the daemon: when it waits and no open call can be answered any
      more, it waits, with the same calls open, until a failed call is given up or a producer
      registers. */
  lemma {:induction false} LostRepliesStall(r: Run, m: nat, n: nat)
    requires IsRun(r) && m <= n <= |r.events| && AllDead(r.states[m]) && D.Waits(r.states[m].daemon.daemon)
    requires forall i :: m <= i < n ==> !Relieves(r.events[i])
    ensures AllDead(r.states[n]) && D.Waits(r.states[n].daemon.daemon)
    ensures r.states[n].daemon.calls.Keys == r.states[m].daemon.calls.Keys
    decreases n
  {
    hide Inv, Step, Enabled, AllDead, Starts, D.Waits;
    if m < n {
      LostRepliesStall(r, m, n - 1);
      EnterWorld(r, n);
      StallStep(r.states[n - 1], r.events[n - 1]);
    }
  }
}
