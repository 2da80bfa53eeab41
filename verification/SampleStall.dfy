/** Runs in which replies are lost: a single lost call, and a daemon that stalls with a live
    producer and work left to send. */
module SampleStall {
  import opened Chunking
  import opened Delivery
  import opened LostCalls
  import opened Answers
  import opened SampleRun
  import D = Scheduler
  import P = PushSystem
  import T = PushTheorems
  import C = CacheProtocol

  /** The first command of call k's handler fails. */
  lemma QuitStep(w: World, k: nat) returns (w': World)
    requires Unserved(w, k) && w.cache.places == map[]
    ensures Next(w, Cache(C.Quit(k)), w') && w' == w.(lost := w.lost + {k})
  {
    w' := Step(w, Cache(C.Quit(k)));
    assert w'.cache == w.cache;
  }

  /** A run in which the handler of a call in flight returns on a Redis error: the call is
      lost although its producer is live and its connection works. */
  lemma AReplyIsLost() returns (r: Run)
    ensures IsRun(r)
    ensures var w := r.states[|r.events|];
            && 0 in w.lost && 0 in w.daemon.calls && w.daemon.calls[0].phase == P.Flying
            && !Answerable(r, 0)
  {
    hide Next, C.Intersection, P.INITIAL;
    var w0 := World(P.INITIAL, C.Fresh(ONE), map[], {});
    var w1, w2, w3 := Dispatching();
    var w4 := QuitStep(w3, 0);
    r := Run([w0, w1, w2, w3, w4],
             [Daemon(P.Register(5, D.PRODUCER, 0)), Daemon(P.BeginPush(0, 1, 0, 7)), Daemon(P.SendNext(0, 0, 0)),
              Cache(C.Quit(0))]);
    assert !Unserved(w4, 0);
    AnswerableIffNotLost(r, 0);
  }

  // ---------- five chunks and one producer ----------

  const FIVE_CHUNKS_END := 5 * UID_COUNT_PER_TIME - 1

  /** What is left of the push after k chunks. */
  function RestAfter(k: nat): Request { Request(0, 1, UID_COUNT_PER_TIME * k, FIVE_CHUNKS_END) }

  function UpTo(k: nat): (s: set<nat>)
    ensures forall i :: i in s <==> 0 <= i < k
  {
    if k == 0 then {} else UpTo(k - 1) + {k - 1}
  }

  /** Producer 5 alone, with k tasks. */
  ghost predicate Sole(d: D.State, k: nat) {
    && D.Coherent(d) && d.producers.Keys == {5}
    && d.sendingCount == k && d.idle == (if k == 0 then {5} else {})
  }

  /** One producer, and k calls to it in flight; the next chunks are still to be sent. */
  ghost predicate Sent(s: P.System, k: nat) {
    && Sole(s.daemon, k)
    && s.calls.Keys == UpTo(k) && s.history.Keys == UpTo(k)
    && (forall c :: c in s.calls ==> s.calls[c].phase == P.Flying)
    && s.loops == map[0 := RestAfter(k)]
  }

  lemma ChoosesSole(d: D.State, k: nat)
    requires Sole(d, k) && k <= 3
    ensures D.Choosable(d) && D.Choose(d, 0) == D.Send(5) && Sole(D.Dispatched(d, 5), k + 1)
  {
    hide D.Consistent;
    D.ChoiceIsLive(d, 0);
    assert |d.producers| == |d.producers.Keys| == 1;
    assert D.Choose(d, 0).Send?;
    assert D.Choose(d, 0).svrId in d.producers.Keys;
    D.DispatchCoherent(d, 5);
  }

  lemma NextRest(k: nat)
    requires k <= 3
    ensures Rest(RestAfter(k)) == RestAfter(k + 1) && Pending(RestAfter(k + 1))
  {
  }

  lemma SendOne(s: P.System, k: nat) returns (s': P.System)
    requires Sent(s, k) && k <= 3
    ensures P.Next(s, P.SendNext(0, 0, k), s') && Sent(s', k + 1)
  {
    hide D.Choose, D.Choosable, D.Dispatched, Sole, Rest, First, RestAfter;
    ChoosesSole(s.daemon, k);
    s' := P.Step(s, P.SendNext(0, 0, k));
    NextRest(k);
  }

  lemma NoneSent(s: P.System)
    requires D.Coherent(s.daemon) && s.daemon.producers.Keys == {5} && s.daemon.idle == {5}
             && s.daemon.sendingCount == 0
    requires s.calls == map[] && s.history == map[] && s.loops == map[0 := RestAfter(0)]
    ensures Sent(s, 0)
  {
    hide D.Coherent;
  }

  lemma FourSent() returns (s: seq<P.System>)
    ensures |s| == 7 && s[0] == P.INITIAL
    ensures P.Next(s[0], P.Register(5, D.PRODUCER, 0), s[1])
    ensures P.Next(s[1], P.BeginPush(0, 1, 0, FIVE_CHUNKS_END), s[2])
    ensures P.Next(s[2], P.SendNext(0, 0, 0), s[3]) && P.Next(s[3], P.SendNext(0, 0, 1), s[4])
    ensures P.Next(s[4], P.SendNext(0, 0, 2), s[5]) && P.Next(s[5], P.SendNext(0, 0, 3), s[6])
    ensures Sent(s[6], 4)
  {
    hide P.Next, Sent;
    var s1, s2 := T.FirstPush(FIVE_CHUNKS_END);
    NoneSent(s2);
    var s3 := SendOne(s2, 0);
    var s4 := SendOne(s3, 1);
    var s5 := SendOne(s4, 2);
    var s6 := SendOne(s5, 3);
    s := [P.INITIAL, s1, s2, s3, s4, s5, s6];
  }

  lemma SentWaits(s: P.System)
    requires Sent(s, 4)
    ensures D.Waits(s.daemon)
  {
    hide D.Coherent;
    assert |s.daemon.producers| == |s.daemon.producers.Keys| == 1;
  }

  lemma FourQuit(w: World) returns (q1: World, q2: World, q3: World, q4: World)
    requires w.handlers == map[] && w.lost == {} && w.cache.places == map[] && w.daemon.history.Keys == UpTo(4)
    ensures Next(w, Cache(C.Quit(0)), q1) && Next(q1, Cache(C.Quit(1)), q2)
    ensures Next(q2, Cache(C.Quit(2)), q3) && Next(q3, Cache(C.Quit(3)), q4)
    ensures q4 == w.(lost := UpTo(4))
  {
    hide Next;
    assert forall k: nat :: k < 4 ==> k in UpTo(4);
    assert forall k: nat :: k < 4 ==> k in w.daemon.history;
    q1 := QuitStep(w, 0);
    q2 := QuitStep(q1, 1);
    q3 := QuitStep(q2, 2);
    q4 := QuitStep(q3, 3);
    assert q4.lost == UpTo(4);
  }

  lemma DaemonNext(w: World, d: P.Event, s: P.System)
    requires P.Next(w.daemon, d, s) && !d.Acknowledge? && !d.Refuse?
    ensures Next(w, Daemon(d), w.(daemon := s))
  {
    hide P.Step, P.Enabled;
  }

  /** A run that stalls: with one live producer, four of five chunks are in flight to handlers
      that returned on a Redis error, and the fifth waits although nothing is being done. */
  lemma TheDaemonStalls() returns (r: Run)
    ensures IsRun(r)
    ensures var w := r.states[|r.events|];
            && AllDead(w) && D.Waits(w.daemon.daemon) && !CanGoOn(r)
            && w.daemon.daemon.producers.Keys == {5} && w.daemon.loops == map[0 := RestAfter(4)]
  {
    hide Next, C.Intersection, P.Next, D.Waits, D.Coherent, P.INITIAL;
    var s := FourSent();
    var base := World(P.INITIAL, C.Fresh(ONE), map[], {});
    var q0 := base.(daemon := s[6]);
    var q1, q2, q3, q4 := FourQuit(q0);
    DaemonNext(base, P.Register(5, D.PRODUCER, 0), s[1]);
    DaemonNext(base.(daemon := s[1]), P.BeginPush(0, 1, 0, FIVE_CHUNKS_END), s[2]);
    DaemonNext(base.(daemon := s[2]), P.SendNext(0, 0, 0), s[3]);
    DaemonNext(base.(daemon := s[3]), P.SendNext(0, 0, 1), s[4]);
    DaemonNext(base.(daemon := s[4]), P.SendNext(0, 0, 2), s[5]);
    DaemonNext(base.(daemon := s[5]), P.SendNext(0, 0, 3), s[6]);
    r := Run([base, base.(daemon := s[1]), base.(daemon := s[2]), base.(daemon := s[3]), base.(daemon := s[4]),
              base.(daemon := s[5]), q0, q1, q2, q3, q4],
             [Daemon(P.Register(5, D.PRODUCER, 0)), Daemon(P.BeginPush(0, 1, 0, FIVE_CHUNKS_END)),
              Daemon(P.SendNext(0, 0, 0)), Daemon(P.SendNext(0, 0, 1)), Daemon(P.SendNext(0, 0, 2)),
              Daemon(P.SendNext(0, 0, 3)),
              Cache(C.Quit(0)), Cache(C.Quit(1)), Cache(C.Quit(2)), Cache(C.Quit(3))]);
    SentWaits(s[6]);
    assert forall c :: c in q4.daemon.calls ==> c in q4.lost;
    GoesOnIff(r);
  }
}
