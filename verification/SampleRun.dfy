/** A run in which a push settles, so that the premises of the delivery theorems can be met. */
module SampleRun {
  import opened Bits
  import opened Chunking
  import opened Producer
  import opened Delivery
  import opened Recipients
  import D = Scheduler
  import P = PushSystem
  import T = PushTheorems
  import C = CacheProtocol
  import S = SendSession

  const ONE: C.Releases := C.Releases([0x80], [0x80], [0x80])

  lemma SamePosition(uids: seq<nat>, i: nat, j: nat)
    requires StrictlyIncreasing(uids) && i < |uids| && j < |uids| && uids[i] == uids[j]
    ensures i == j
  {
  }

  lemma OnlyZero(uids: seq<nat>)
    requires StrictlyIncreasing(uids) && 0 in uids && forall i :: 0 <= i < |uids| ==> uids[i] == 0
    ensures uids == [0]
  {
    SamePosition(uids, 0, |uids| - 1);
  }

  lemma OneUid()
    ensures C.Intersection(ONE) == [0x80]
    ensures Pushed([0x80], 0, 7) == [0]
  {
    hide Pushed;
    assert AndByte(0x80, 0x80, 0x80) == 0x80;
    var v: Bitmap := [0x80];
    var uids := Pushed(v, 0, 7);
    AlignedInverts(v, 0, 7);
    forall u: nat | u <= 7 ensures HasUid(v, u) <==> u == 0 { MaskValue(u); }
    assert LastBit(7) == 7;
    assert 0 in uids;
    forall i | 0 <= i < |uids| ensures uids[i] == 0 {
      assert uids[i] in uids;
      assert HasUid(v, uids[i]);
    }
    OnlyZero(uids);
  }

  /** The daemon side up to the call in flight. */
  lemma Dispatching() returns (w1: World, w2: World, w3: World)
    ensures var w0 := World(P.INITIAL, C.Fresh(ONE), map[], {});
            && Next(w0, Daemon(P.Register(5, D.PRODUCER, 0)), w1)
            && Next(w1, Daemon(P.BeginPush(0, 1, 0, 7)), w2)
            && Next(w2, Daemon(P.SendNext(0, 0, 0)), w3)
    ensures w3.handlers == map[] && w3.lost == {} && w3.cache == C.Fresh(ONE)
    ensures w3.daemon.calls == map[0 := P.Call(5, Request(0, 1, 0, 7), P.Flying)]
    ensures w3.daemon.history == map[0 := Request(0, 1, 0, 7)]
    ensures w3.daemon.loops == map[] && w3.daemon.resends == map[] && w3.daemon.pushes == map[0 := Request(0, 1, 0, 7)]
  {
    hide P.Step, P.Enabled;
    var s1, s2 := T.FirstPush(7);
    var s3 := T.FirstSend(s2);
    var cache := C.Fresh(ONE);
    w1, w2, w3 := World(s1, cache, map[], {}), World(s2, cache, map[], {}), World(s3, cache, map[], {});
  }

  /** The cache is built and the call is served. */
  lemma Serving(w3: World) returns (w4: World, w5: World, w6: World, w7: World)
    requires w3.handlers == map[] && w3.lost == {} && w3.cache == C.Fresh(ONE)
             && w3.daemon.history == map[0 := Request(0, 1, 0, 7)]
    ensures Next(w3, Cache(C.AskExists(0)), w4)
    ensures Next(w4, Cache(C.BitOp(0, true)), w5)
    ensures Next(w5, Cache(C.SetExpiry(0)), w6)
    ensures Next(w6, Serve(0, ONE), w7)
    ensures w7.daemon == w3.daemon && w7.handlers == map[0 := Handler(S.Begin([0]), ONE)]
  {
    hide Pushed, C.Intersection;
    OneUid();
    w4 := Step(w3, Cache(C.AskExists(0)));
    w5 := Step(w4, Cache(C.BitOp(0, true)));
    w6 := Step(w5, Cache(C.SetExpiry(0)));
    w7 := Step(w6, Serve(0, ONE));
  }

  /** The broker confirms, the handler answers. */
  lemma Confirming(w7: World) returns (w8: World, w9: World, w10: World)
    requires w7.handlers == map[0 := Handler(S.Begin([0]), ONE)]
    requires w7.daemon.calls == map[0 := P.Call(5, Request(0, 1, 0, 7), P.Flying)]
    requires w7.daemon.history == map[0 := Request(0, 1, 0, 7)]
    requires w7.daemon.loops == map[] && w7.daemon.resends == map[] && w7.daemon.pushes == map[0 := Request(0, 1, 0, 7)]
    ensures Next(w7, Broker(0, S.Send(0, true)), w8)
    ensures Next(w8, Broker(0, S.Succeed(0)), w9)
    ensures Next(w9, Daemon(P.Acknowledge(0)), w10)
    ensures T.Settled(w10.daemon, 0) && Receives(w10, 0, 0)
    ensures w10.daemon.pushes == w7.daemon.pushes
  {
    hide D.Decreased;
    w8 := Step(w7, Broker(0, S.Send(0, true)));
    w9 := Step(w8, Broker(0, S.Succeed(0)));
    var s := w9.handlers[0].session;
    assert s.messages[0] == S.Confirmed && s.uids[0] == 0;
    w10 := Step(w9, Daemon(P.Acknowledge(0)));
    assert Confirms(w10.handlers[0].session, 0);
    assert ConfirmedBy(w10, 0, 0, 0);
  }

  /** The premises of the delivery theorems can be met: in this run a push settles and its
      one recipient has the message. */
  lemma APushArrives() returns (r: Run)
    ensures IsRun(r)
    ensures var w := r.states[|r.events|];
            T.Settled(w.daemon, 0) && w.daemon.pushes[0] == Request(0, 1, 0, 7) && Receives(w, 0, 0)
  {
    hide Next, Receives, T.Settled, C.Intersection;
    var w0 := World(P.INITIAL, C.Fresh(ONE), map[], {});
    var w1, w2, w3 := Dispatching();
    var w4, w5, w6, w7 := Serving(w3);
    var w8, w9, w10 := Confirming(w7);
    r := Run([w0, w1, w2, w3, w4, w5, w6, w7, w8, w9, w10],
             [Daemon(P.Register(5, D.PRODUCER, 0)), Daemon(P.BeginPush(0, 1, 0, 7)), Daemon(P.SendNext(0, 0, 0)),
              Cache(C.AskExists(0)), Cache(C.BitOp(0, true)), Cache(C.SetExpiry(0)), Serve(0, ONE),
              Broker(0, S.Send(0, true)), Broker(0, S.Succeed(0)), Daemon(P.Acknowledge(0))]);
  }
}
