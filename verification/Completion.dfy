/** Every push can still be finished: from any reachable state of the whole system with a
    live producer, whatever has failed or been lost so far. */
module Completion {
  import opened Chunking
  import opened History
  import opened Delivery
  import opened Answers
  import P = PushSystem
  import T = PushTheorems
  import L = Progress
  import G = Conservation
  import C = CacheProtocol

  /** The published bitmaps reach the last byte of every push. */
  predicate CoversPushes(w: World) { forall p :: p in w.daemon.pushes ==> Covered(w.cache, w.daemon.pushes[p]) }

  /** What the steps below keep: the pushes, the releases, and that somebody is live. */
  ghost predicate GoesOn(r: Run, r': Run) {
    && Extends(r, r') && Inv(Last(r'))
    && L.Steady(Last(r).daemon, Last(r').daemon)
    && Last(r').cache.releases == Last(r).cache.releases
  }

  lemma GoesOnChain(a: Run, b: Run, c: Run)
    requires GoesOn(a, b) && GoesOn(b, c)
    ensures GoesOn(a, c)
  {
    hide Inv, IsRun;
  }

  lemma GoesOnKnown(r: Run, r': Run)
    requires GoesOn(r, r') && CoversPushes(Last(r)) && Last(r).daemon.daemon.producers != map[]
    ensures IsRun(r') && Inv(Last(r')) && CoversPushes(Last(r')) && Last(r').daemon.daemon.producers != map[]
  {
    hide Inv, Next, Starts, C.Intersection;
  }

  lemma DaemonKnown(w: World)
    requires Inv(w)
    ensures T.Inv(w.daemon) && G.InvPlaces(w.daemon)
  {
    hide C.Inv, HistoryInv, HandlerInv, AckInv, CallInv;
  }

  lemma ExtendDaemon(r: Run, d: P.Event) returns (r': Run)
    requires IsRun(r) && P.Enabled(Last(r).daemon, d) && !d.Acknowledge? && !d.Refuse?
    ensures Extends(r, r') && Inv(Last(r')) && T.Inv(Last(r').daemon)
    ensures Last(r') == Last(r).(daemon := P.Step(Last(r).daemon, d))
  {
    hide Inv, Next, Starts, P.Enabled, P.Step;
    r' := Extend(r, Daemon(d));
    DaemonKnown(Last(r'));
  }

  // ---------- open calls can be given up ----------

  /** A call that was charged with a failure is given up. */
  lemma GiveUpOne(r: Run, call: nat) returns (r': Run)
    requires IsRun(r) && Inv(Last(r)) && call in Last(r).daemon.calls && Last(r).daemon.calls[call].phase == P.Charged
    ensures GoesOn(r, r') && |Last(r').daemon.calls| < |Last(r).daemon.calls|
  {
    hide Inv, Next, Starts, P.Step, T.Inv, G.InvPlaces, L.Steady;
    DaemonKnown(Last(r));
    r' := ExtendDaemon(r, P.GiveUp(call));
    L.GiveUpStep(Last(r).daemon, call);
  }

  lemma SomebodyRegistered(s: P.System) returns (id: nat)
    requires T.Inv(s) && s.daemon.producers != map[]
    ensures id in s.daemon.svrInfo && id in s.daemon.producers
  {
    hide G.InvPlaces;
    if forall x :: x !in s.daemon.producers.Keys { assert false; }
    id :| id in s.daemon.producers.Keys;
  }

  lemma SteadyIfLive(s: P.System, s': P.System, id: nat)
    requires s'.pushes == s.pushes && id in s'.daemon.producers
    ensures L.Steady(s, s')
  {
  }

  /** The connection of a call fails. A sweep before it keeps one producer from being removed
      for its failures. */
  lemma FailOne(r: Run, call: nat) returns (r': Run)
    requires IsRun(r) && Inv(Last(r)) && Last(r).daemon.daemon.producers != map[]
    requires call in Last(r).daemon.calls && Last(r).daemon.calls[call].phase == P.Flying
    ensures GoesOn(r, r') && |Last(r').daemon.calls| == |Last(r).daemon.calls|
    ensures call in Last(r').daemon.calls && Last(r').daemon.calls[call].phase == P.Charged
  {
    hide Inv, Next, Starts, P.Step, T.Inv, L.Steady;
    var s := Last(r).daemon;
    DaemonKnown(Last(r));
    var id := SomebodyRegistered(s);
    var now := s.daemon.svrInfo[id].timestamp;
    var q := ExtendDaemon(r, P.Sweep(now));
    L.SweepStep(s, id);
    r' := ExtendDaemon(q, P.Charge(call));
    L.ChargeStep(Last(q).daemon, call, id);
    SteadyIfLive(s, Last(r').daemon, id);
    SameSize(s.calls, Last(r').daemon.calls);
  }

  lemma SameSize(m: map<nat, P.Call>, m': map<nat, P.Call>)
    requires m.Keys == m'.Keys
    ensures |m| == |m'|
  {
    assert |m| == |m.Keys| && |m'| == |m'.Keys|;
  }

  /** Whatever calls are open, lost ones among them, all can end by failing. */
  lemma {:induction false} ClearCalls(r: Run) returns (r': Run)
    requires IsRun(r) && Inv(Last(r)) && Last(r).daemon.daemon.producers != map[] && CoversPushes(Last(r))
    ensures GoesOn(r, r') && Last(r').daemon.calls == map[]
    decreases |Last(r).daemon.calls|
  {
    hide Inv, Next, Starts, GoesOn, CoversPushes;
    var calls := Last(r).daemon.calls;
    if calls == map[] {
      r' := r;
      StaysPut(r);
    } else {
      if forall c :: c !in calls.Keys { assert false; }
      var call :| call in calls.Keys;
      var q := r;
      StaysPut(r);
      if calls[call].phase == P.Flying { q := FailOne(r, call); }
      GoesOnKnown(r, q);
      var q' := GiveUpOne(q, call);
      GoesOnKnown(q, q');
      var q'' := ClearCalls(q');
      GoesOnChain(q, q', q'');
      GoesOnChain(r, q, q'');
      r' := q'';
    }
  }

  lemma StaysPut(r: Run)
    requires IsRun(r) && Inv(Last(r))
    ensures GoesOn(r, r)
  {
    hide Inv, Next, Starts;
  }

  // ---------- the remaining chunks can be delivered ----------

  lemma NewCallUnserved(w: World, w': World, call: nat)
    requires Inv(w) && call !in w.daemon.history && w' == w.(daemon := w'.daemon) && call in w'.daemon.history
    ensures Unserved(w', call) && call !in w'.cache.places
  {
    hide T.Inv, C.Inv, HistoryInv, AckInv, Serves;
  }

  /** A chunk ends no later than its push, so bitmaps that cover the push cover the chunk. */
  lemma ChunkCovered(w: World, call: nat)
    requires Inv(w) && CoversPushes(w) && call in w.daemon.history
    ensures Covered(w.cache, w.daemon.history[call])
  {
    hide T.Inv, C.Inv, AckInv, HandlerInv, CallInv, Split, NoWrap, C.Intersection;
    var chunk := w.daemon.history[call];
    assert FromPush(w.daemon, chunk);
    var r := w.daemon.pushes[chunk.push];
    var i :| 0 <= i < |Split(r)| && Split(r)[i] == chunk;
    SplitShape(r);
    assert chunk == ChunkAt(r, i);
    assert chunk.end <= r.end;
    assert Covered(w.cache, r);
  }

  /** One chunk is sent, served, confirmed by the broker and acknowledged. */
  lemma DeliverOne(r: Run, e: P.Event) returns (r': Run)
    requires IsRun(r) && Inv(Last(r)) && CoversPushes(Last(r)) && P.Enabled(Last(r).daemon, e) && L.Sends(e)
    requires Last(r).daemon.calls == map[] && Last(r).daemon.daemon.producers != map[]
    ensures GoesOn(r, r') && Last(r').daemon.calls == map[]
    ensures G.InvPlaces(Last(r).daemon) && G.InvPlaces(Last(r').daemon)
    ensures L.Unacked(Last(r').daemon) < L.Unacked(Last(r).daemon)
  {
    hide Inv, Next, Starts, P.Step, T.Inv, CoversPushes, L.Unacked, G.InvPlaces, L.Steady, Covered, Unserved;
    var s := Last(r).daemon;
    DaemonKnown(Last(r));
    L.SendsWhenFree(s);
    var q := ExtendDaemon(r, e);
    DaemonKnown(Last(q));
    L.SendStep(s, e);
    FreshSend(s, e);
    OpenStarted(Last(q), e.call);
    NewCallUnserved(Last(r), Last(q), e.call);
    SteadyCovers(Last(r), Last(q));
    ChunkCovered(Last(q), e.call);
    LostIsStarted(Last(q), e.call);
    r' := AnswerAndAcknowledge(q, e.call);
    DaemonKnown(Last(r'));
    L.AcknowledgeStep(Last(q).daemon, e.call);
    L.SteadyChain(s, Last(q).daemon, Last(r').daemon);
    assert Last(r').daemon.calls.Keys == {};
  }

  lemma FreshSend(s: P.System, e: P.Event)
    requires P.Enabled(s, e) && L.Sends(e)
    ensures e.call !in s.history
  {
  }

  lemma SteadyCovers(w: World, w': World)
    requires CoversPushes(w) && L.Steady(w.daemon, w'.daemon) && w'.cache == w.cache
    ensures CoversPushes(w')
  {
    hide C.Intersection;
  }

  lemma LostIsStarted(w: World, call: nat)
    requires Unserved(w, call)
    ensures call !in w.lost && call in w.daemon.history
  {
  }

  ghost predicate NothingOpen(s: P.System) { s.calls == map[] && s.loops == map[] && s.resends == map[] }

  /** A send that is possible when some loop or re-send is left. */
  lemma NextSend(s: P.System) returns (e: P.Event)
    requires T.Inv(s) && s.calls == map[] && s.daemon.producers != map[] && !NothingOpen(s)
    ensures P.Enabled(s, e) && L.Sends(e)
  {
    hide T.Inv;
    var call := L.FreshCall(s.history);
    L.SendsWhenFree(s);
    if s.loops != map[] {
      if forall x :: x !in s.loops.Keys { assert false; }
      var push :| push in s.loops.Keys;
      e := P.SendNext(push, 0, call);
    } else {
      if forall x :: x !in s.resends.Keys { assert false; }
      var failed :| failed in s.resends.Keys;
      e := P.SendAgain(failed, 0, call);
    }
  }

  lemma {:induction false} DeliverRest(r: Run) returns (r': Run)
    requires IsRun(r) && Inv(Last(r)) && CoversPushes(Last(r)) && G.InvPlaces(Last(r).daemon)
    requires Last(r).daemon.calls == map[] && Last(r).daemon.daemon.producers != map[]
    ensures GoesOn(r, r') && NothingOpen(Last(r').daemon)
    decreases L.Unacked(Last(r).daemon)
  {
    hide Inv, Next, Starts, GoesOn, CoversPushes, T.Inv, P.Enabled, L.Unacked, G.InvPlaces;
    if NothingOpen(Last(r).daemon) {
      r' := r;
      StaysPut(r);
    } else {
      DaemonKnown(Last(r));
      var e := NextSend(Last(r).daemon);
      var q := DeliverOne(r, e);
      GoesOnKnown(r, q);
      var q' := DeliverRest(q);
      GoesOnChain(r, q, q');
      r' := q';
    }
  }

  /** Whatever calls have failed or been lost: while a producer is live and the published
      bitmaps cover the pushes, the run can go on to a state in which every push received so
      far has settled. */
  lemma CanSettle(r: Run) returns (r': Run)
    requires IsRun(r) && Last(r).daemon.daemon.producers != map[] && CoversPushes(Last(r))
    ensures Extends(r, r') && Last(r').daemon.pushes == Last(r).daemon.pushes
    ensures L.AllSettled(Last(r').daemon)
  {
    hide Inv, Next, Starts, CoversPushes, L.AllSettled, G.InvPlaces;
    RunKnown(r);
    var q := ClearCalls(r);
    GoesOnKnown(r, q);
    DaemonKnown(Last(q));
    r' := DeliverRest(q);
    GoesOnChain(r, q, r');
    L.NothingLeft(Last(r').daemon);
  }
}
