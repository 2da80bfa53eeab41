/** Which calls can still be answered, and when a waiting daemon can go on. */
module Answers {
  import opened Bits
  import opened Redis
  import opened Chunking
  import opened Producer
  import opened History
  import opened Delivery
  import opened LostCalls
  import D = Scheduler
  import P = PushSystem
  import T = PushTheorems
  import C = CacheProtocol
  import S = SendSession

  // ---------- longer runs ----------

  function Last(r: Run): World
    requires r.states != []
  {
    r.states[|r.states| - 1]
  }

  ghost predicate Extends(r: Run, r': Run) {
    IsRun(r) && IsRun(r') && r.states <= r'.states && r.events <= r'.events
  }

  lemma Extend(r: Run, e: Event) returns (r': Run)
    requires IsRun(r) && Enabled(Last(r), e)
    ensures Extends(r, r') && Last(r') == Step(Last(r), e) && Inv(Last(r'))
    ensures r'.events == r.events + [e]
  {
    hide Step, Enabled, Inv, Starts;
    r' := Run(r.states + [Step(Last(r), e)], r.events + [e]);
    forall i | 0 <= i < |r'.events| ensures Next(r'.states[i], r'.events[i], r'.states[i + 1]) {
      if i < |r.events| { assert Next(r.states[i], r.events[i], r.states[i + 1]); }
    }
    InvHolds(r', |r'.events|);
  }

  /** An event of the producers: neither the daemon nor the update program takes part. */
  predicate OfProducers(e: Event) { !e.Daemon? && !(e.Cache? && e.c.Rename?) }

  /** The run goes on with such events, which leave the daemon and the releases alone. */
  ghost predicate Quietly(r: Run, r': Run) {
    && Extends(r, r') && Inv(Last(r'))
    && (forall i :: |r.events| <= i < |r'.events| ==> OfProducers(r'.events[i]))
    && Last(r').daemon == Last(r).daemon && Last(r').cache.releases == Last(r).cache.releases
  }

  lemma ExtendQuietly(r: Run, e: Event) returns (r': Run)
    requires IsRun(r) && Enabled(Last(r), e) && OfProducers(e)
    ensures Quietly(r, r') && Last(r') == Step(Last(r), e)
  {
    hide Inv, Enabled, Starts, Next, C.Intersection, Pushed;
    KeepsDaemon(Last(r), e);
    r' := Extend(r, e);
  }

  lemma KeepsDaemon(w: World, e: Event)
    requires Enabled(w, e) && OfProducers(e)
    ensures Step(w, e).daemon == w.daemon && Step(w, e).cache.releases == w.cache.releases
  {
    hide C.Intersection, Pushed, S.Step, S.Begin;
  }

  lemma QuietlyChain(a: Run, b: Run, c: Run)
    requires Quietly(a, b) && Quietly(b, c)
    ensures Quietly(a, c)
  {
    hide Inv, Next, Starts, OfProducers;
    forall i | |a.events| <= i < |c.events| ensures OfProducers(c.events[i]) {
      if i < |b.events| { assert c.events[i] == b.events[i]; }
    }
  }

  // ---------- a handler that sends can finish ----------

  lemma NextToConfirm(s: S.Session) returns (i: nat)
    requires S.Inv(s) && !s.count.finished
    ensures i < |s.messages|
    ensures s.messages[i] == S.Outstanding || S.Enabled(s, S.Send(i, true))
    ensures s.messages[i] == S.Outstanding || s.messages[i] == S.Queued || s.messages[i] == S.Retrying
  {
    if forall j :: j !in S.Unconfirmed(s.messages) { assert false; }
    i :| i in S.Unconfirmed(s.messages);
    if s.messages[i] == S.Queued { i := s.next; }
  }

  lemma SendLeaves(s: S.Session, i: nat)
    requires S.Enabled(s, S.Send(i, true))
    ensures var s' := S.Step(s, S.Send(i, true));
            |S.Unconfirmed(s'.messages)| == |S.Unconfirmed(s.messages)| && S.Enabled(s', S.Succeed(i))
  {
    assert S.Unconfirmed(S.Step(s, S.Send(i, true)).messages) == S.Unconfirmed(s.messages);
  }

  lemma SucceedShrinks(s: S.Session, i: nat)
    requires S.Enabled(s, S.Succeed(i))
    ensures |S.Unconfirmed(S.Step(s, S.Succeed(i)).messages)| < |S.Unconfirmed(s.messages)|
  {
    assert S.Unconfirmed(S.Step(s, S.Succeed(i)).messages) == S.Unconfirmed(s.messages) - {i};
  }

  lemma HandlerSession(w: World, call: nat)
    requires Inv(w) && call in w.handlers
    ensures S.Inv(w.handlers[call].session) && call in w.daemon.history && call !in w.lost
  {
    hide T.Inv, C.Inv, HistoryInv, AckInv;
  }

  lemma Brokered(w: World, call: nat, b: S.Event)
    requires Enabled(w, Broker(call, b))
    ensures call in Step(w, Broker(call, b)).handlers
    ensures Step(w, Broker(call, b)).handlers[call].session == S.Step(w.handlers[call].session, b)
  {
  }

  /** The broker confirms one more message of this handler. */
  lemma ConfirmOne(r: Run, call: nat) returns (r': Run)
    requires IsRun(r) && Inv(Last(r)) && call in Last(r).handlers && !Last(r).handlers[call].session.count.finished
    ensures Quietly(r, r') && call in Last(r').handlers
    ensures var s, s' := Last(r).handlers[call].session, Last(r').handlers[call].session;
            |S.Unconfirmed(s'.messages)| < |S.Unconfirmed(s.messages)|
  {
    hide Inv, Next, Starts, S.Inv, S.Step, S.Enabled, S.Unconfirmed, OfProducers, Step, Quietly;
    var s := Last(r).handlers[call].session;
    HandlerSession(Last(r), call);
    var i := NextToConfirm(s);
    var q := r;
    assert Sending(Broker(call, S.Succeed(i))) && Sending(Broker(call, S.Send(i, true)));
    if s.messages[i] == S.Outstanding {
      OutstandingSucceeds(s, i);
      r' := ExtendQuietly(r, Broker(call, S.Succeed(i)));
      Brokered(Last(r), call, S.Succeed(i));
      SucceedShrinks(s, i);
    } else {
      q := ExtendQuietly(r, Broker(call, S.Send(i, true)));
      Brokered(Last(r), call, S.Send(i, true));
      SendLeaves(s, i);
      QuietIsRun(r, q);
      r' := ExtendQuietly(q, Broker(call, S.Succeed(i)));
      Brokered(Last(q), call, S.Succeed(i));
      SucceedShrinks(S.Step(s, S.Send(i, true)), i);
      QuietlyChain(r, q, r');
    }
  }

  lemma OutstandingSucceeds(s: S.Session, i: nat)
    requires i < |s.messages| && s.messages[i] == S.Outstanding
    ensures S.Enabled(s, S.Succeed(i))
  {
  }

  predicate Sending(e: Event)
    ensures Sending(e) ==> OfProducers(e)
  {
    e.Broker?
  }

  lemma QuietIsRun(r: Run, r': Run)
    requires Quietly(r, r')
    ensures IsRun(r') && Inv(Last(r'))
  {
  }

  /** A handler that has read its range can be answered for, whatever it has sent so far. */
  lemma {:induction false} HandlerCanAnswer(r: Run, call: nat) returns (r': Run)
    requires IsRun(r) && Inv(Last(r)) && call in Last(r).handlers
    ensures Quietly(r, r') && Answer(Last(r'), call) == Some(S.SUCCESS)
    decreases |S.Unconfirmed(Last(r).handlers[call].session.messages)|
  {
    hide Inv, Next, Starts, S.Inv, S.Unconfirmed, OfProducers;
    var w := Last(r);
    if w.handlers[call].session.count.finished {
      r' := r;
      AnswersSuccessInv(w, call);
    } else {
      var q := ConfirmOne(r, call);
      r' := HandlerCanAnswer(q, call);
      QuietlyChain(r, q, r');
    }
  }

  lemma AnswersSuccessInv(w: World, call: nat)
    requires Inv(w)
    ensures Answer(w, call).Some? ==> Answer(w, call) == Some(S.SUCCESS)
  {
    hide T.Inv, C.Inv, HistoryInv, AckInv, CallInv, Serves;
    AnswersSuccess(w, call);
  }

  // ---------- a handler can get to read ----------

  /** The published bitmaps reach the last byte of this chunk. */
  predicate Covered(c: C.Cache, chunk: Request) { chunk.end / BITS_PER_BYTE < |C.Intersection(c.releases)| }

  /** A handler that still has to build the cache needs bitmaps that are long enough; one that
      has been told that the key is there needs a key that is long enough. */
  predicate Servable(w: World, call: nat)
    requires call in w.daemon.history
  {
    if call in w.cache.places && w.cache.places[call] != C.Building then Readable(w.cache, w.daemon.history[call])
    else Covered(w.cache, w.daemon.history[call])
  }

  lemma ShownView(c: C.Cache) returns (view: C.Releases)
    requires C.Inv(c) && c.tmp.Some?
    ensures Viewed(c, view)
  {
    hide C.Intersection;
    var i :| 0 <= i < |c.seen| && C.Shows(c, i);
    view := c.seen[i];
  }

  lemma WorldCache(w: World)
    requires Inv(w)
    ensures C.Inv(w.cache)
  {
    hide T.Inv, C.Inv, HistoryInv, AckInv, HandlerInv, CallInv;
  }

  /** A handler at its GETRANGE reads. */
  lemma ReadNow(r: Run, call: nat) returns (r': Run)
    requires IsRun(r) && Inv(Last(r)) && Unserved(Last(r), call)
    requires call in Last(r).cache.places && Last(r).cache.places[call] == C.Reading
    requires Readable(Last(r).cache, Last(r).daemon.history[call])
    ensures Quietly(r, r') && call in Last(r').handlers
  {
    hide Inv, Next, Starts, C.Intersection, Pushed, S.Begin, C.Inv, Quietly;
    WorldCache(Last(r));
    var view := ShownView(Last(r).cache);
    r' := ExtendQuietly(r, Serve(call, view));
  }

  /** A handler at its EXPIRE finds the key and reads. */
  lemma ExpireAndRead(r: Run, call: nat) returns (r': Run)
    requires IsRun(r) && Inv(Last(r)) && Unserved(Last(r), call)
    requires call in Last(r).cache.places && Last(r).cache.places[call] == C.Expiring
    requires Readable(Last(r).cache, Last(r).daemon.history[call])
    ensures Quietly(r, r') && call in Last(r').handlers
  {
    hide Inv, Next, Starts, C.Intersection, Quietly;
    var q := ExtendQuietly(r, Cache(C.SetExpiry(call)));
    QuietIsRun(r, q);
    r' := ReadNow(q, call);
    QuietlyChain(r, q, r');
  }

  /** A handler at its BITOP builds the cache from the published bitmaps and reads. */
  lemma BuildAndRead(r: Run, call: nat) returns (r': Run)
    requires IsRun(r) && Inv(Last(r)) && Unserved(Last(r), call)
    requires call in Last(r).cache.places && Last(r).cache.places[call] == C.Building
    requires Covered(Last(r).cache, Last(r).daemon.history[call])
    ensures Quietly(r, r') && call in Last(r').handlers
  {
    hide Inv, Next, Starts, C.Intersection, Quietly;
    var q := ExtendQuietly(r, Cache(C.BitOp(call, true)));
    QuietIsRun(r, q);
    r' := ExpireAndRead(q, call);
    QuietlyChain(r, q, r');
  }

  /** A call reaches its handler after the cached key has expired. */
  lemma EnterAndRead(r: Run, call: nat) returns (r': Run)
    requires IsRun(r) && Inv(Last(r)) && Unserved(Last(r), call) && call !in Last(r).cache.places
    requires Covered(Last(r).cache, Last(r).daemon.history[call])
    ensures Quietly(r, r') && call in Last(r').handlers
  {
    hide Inv, Next, Starts, C.Intersection, Quietly;
    var q := ExtendQuietly(r, Cache(C.Expire));
    QuietIsRun(r, q);
    var q' := ExtendQuietly(q, Cache(C.AskExists(call)));
    QuietIsRun(q, q');
    r' := BuildAndRead(q', call);
    QuietlyChain(r, q, q');
    QuietlyChain(r, q', r');
  }

  /** A call that is not lost can be answered without any help of the daemon or the update
      program. */
  lemma CanAnswer(r: Run, call: nat) returns (r': Run)
    requires IsRun(r) && call in Last(r).daemon.history && call !in Last(r).lost
    requires Unserved(Last(r), call) ==> Servable(Last(r), call)
    ensures Quietly(r, r') && Answer(Last(r'), call) == Some(S.SUCCESS)
  {
    hide Inv, Next, Starts, Readable, Covered, Quietly;
    RunKnown(r);
    var w := Last(r);
    if call in w.handlers {
      r' := HandlerCanAnswer(r, call);
    } else {
      var q: Run;
      if call !in w.cache.places {
        q := EnterAndRead(r, call);
      } else if w.cache.places[call] == C.Building {
        q := BuildAndRead(r, call);
      } else if w.cache.places[call] == C.Expiring {
        q := ExpireAndRead(r, call);
      } else {
        q := ReadNow(r, call);
      }
      QuietIsRun(r, q);
      r' := HandlerCanAnswer(q, call);
      QuietlyChain(r, q, r');
    }
  }

  lemma RunKnown(r: Run)
    requires IsRun(r)
    ensures r.states != [] && Last(r) == r.states[|r.events|] && Inv(Last(r))
  {
    hide Inv, Next, Starts;
    InvHolds(r, |r.events|);
  }

  /** The run can go on to a state in which the producer has answered the call. */
  ghost predicate Answerable(r: Run, call: nat) {
    exists r' :: Extends(r, r') && Answer(Last(r'), call) == Some(S.SUCCESS)
  }

  /** Exactly which calls can still be answered: those whose handler has not returned on a
      Redis error. Of a handler that has not read its range yet this takes bitmaps, or a
      cached key, as long as the chunk needs. */
  lemma AnswerableIffNotLost(r: Run, call: nat)
    requires IsRun(r) && call in Last(r).daemon.history
    requires Unserved(Last(r), call) ==> Servable(Last(r), call)
    ensures Answerable(r, call) <==> call !in Last(r).lost
  {
    hide Inv, Next, Starts, Servable, Unserved, OfProducers, Answer;
    if call !in Last(r).lost {
      var r' := CanAnswer(r, call);
      assert Extends(r, r') && Answer(Last(r'), call) == Some(S.SUCCESS);
    } else if Answerable(r, call) {
      var r' :| Extends(r, r') && Answer(Last(r'), call) == Some(S.SUCCESS);
      LostStaysUnanswered(r, r', call);
    }
  }

  lemma LostStaysUnanswered(r: Run, r': Run, call: nat)
    requires Extends(r, r') && call in Last(r).lost
    ensures Answer(Last(r'), call) == None
  {
    hide Inv, Next, Starts, Answer;
    assert Last(r) == r'.states[|r.events|];
    LostCallNeedsFailure(r', |r.events|, |r'.events|, call);
  }

  // ---------- when a wait can end ----------

  /** The run goes on without a failed call being given up and without a registration. */
  ghost predicate Unrelieved(r: Run, r': Run) {
    Extends(r, r') && forall i :: |r.events| <= i < |r'.events| ==> !Relieves(r'.events[i])
  }

  /** Some call that is open now can be done with in this way. */
  ghost predicate CanGoOn(r: Run) {
    exists r' :: Unrelieved(r, r') && Last(r').daemon.calls.Keys != Last(r).daemon.calls.Keys
  }

  lemma AnswerAndAcknowledge(r: Run, call: nat) returns (r': Run)
    requires IsRun(r) && call in Last(r).daemon.calls && Last(r).daemon.calls[call].phase == P.Flying
    requires call in Last(r).daemon.history && call !in Last(r).lost
    requires Unserved(Last(r), call) ==> Servable(Last(r), call)
    ensures Unrelieved(r, r') && Inv(Last(r')) && Last(r').cache.releases == Last(r).cache.releases
    ensures P.Enabled(Last(r).daemon, P.Acknowledge(call))
    ensures Last(r').daemon == P.Step(Last(r).daemon, P.Acknowledge(call))
  {
    hide Inv, Servable, Unserved, P.Step, Next, Starts;
    var q := CanAnswer(r, call);
    r' := Extend(q, Daemon(P.Acknowledge(call)));
    forall i | |r.events| <= i < |r'.events| ensures !Relieves(r'.events[i]) {
      if i < |q.events| { assert r'.events[i] == q.events[i] && OfProducers(q.events[i]); }
    }
  }

  /** Exactly when a waiting daemon can go on without a connection failing and without a new
      producer: if one of its open calls can still be answered. */
  lemma GoesOnIff(r: Run)
    requires IsRun(r) && D.Waits(Last(r).daemon.daemon)
    requires forall c :: c in Last(r).daemon.calls && Unserved(Last(r), c) ==> Servable(Last(r), c)
    ensures CanGoOn(r) <==> !AllDead(Last(r))
  {
    hide Inv, Next, Starts, Servable, Unserved, D.Waits;
    RunKnown(r);
    if AllDead(Last(r)) {
      forall r' | Unrelieved(r, r') ensures Last(r').daemon.calls.Keys == Last(r).daemon.calls.Keys {
        assert Last(r) == r'.states[|r.events|];
        LostRepliesStall(r', |r.events|, |r'.events|);
      }
    } else {
      var c :| c in Last(r).daemon.calls && c !in Last(r).lost && Last(r).daemon.calls[c].phase != P.Charged;
      OpenStarted(Last(r), c);
      var r' := AnswerAndAcknowledge(r, c);
      AcknowledgedIsGone(Last(r).daemon, c);
      assert c !in Last(r').daemon.calls.Keys;
      assert Unrelieved(r, r');
    }
  }

  lemma OpenStarted(w: World, c: nat)
    requires Inv(w) && c in w.daemon.calls
    ensures c in w.daemon.history
  {
    hide C.Inv, HistoryInv, AckInv, HandlerInv, CallInv;
    OpenIsStarted(w.daemon, c);
  }

  lemma AcknowledgedIsGone(s: P.System, c: nat)
    requires P.Enabled(s, P.Acknowledge(c))
    ensures c !in P.Step(s, P.Acknowledge(c)).calls
  {
  }
}
