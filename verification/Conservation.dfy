/** Where every chunk of every push is: an equation between multisets that each step keeps. */
module Conservation {
  import opened OrderedKeys
  import opened Scheduler
  import opened Chunking
  import opened PushSystem

  /** The chunks a request still stands for. */
  ghost function Parts(r: Request): multiset<Request> {
    if NoWrap(r) then multiset(Split(r)) else multiset{}
  }

  /** The chunks all requests of a table stand for, with multiplicity. */
  ghost function Gather(m: map<nat, Request>): multiset<Request>
    decreases m.Keys
  {
    if m == map[] then multiset{}
    else
      var k := Max(m.Keys);
      Parts(m[k]) + Gather(m - {k})
  }

  lemma Shuffle(a: multiset<Request>, b: multiset<Request>, c: multiset<Request>)
    ensures a + (b + c) == b + (a + c)
  {
  }

  lemma {:induction false} GatherRemove(m: map<nat, Request>, k: nat)
    requires k in m
    ensures Gather(m) == Parts(m[k]) + Gather(m - {k})
    decreases m.Keys
  {
    var x := Max(m.Keys);
    if x != k {
      var mx, mk := m - {x}, m - {k};
      assert mx[k] == m[k] && mk[x] == m[x];
      assert Max(mk.Keys) == x;
      GatherRemove(mx, k);
      assert mx - {k} == mk - {x};
      Shuffle(Parts(m[x]), Parts(m[k]), Gather(mk - {x}));
    }
  }

  lemma GatherInsert(m: map<nat, Request>, k: nat, r: Request)
    requires k !in m
    ensures Gather(m[k := r]) == Parts(r) + Gather(m)
  {
    GatherRemove(m[k := r], k);
    assert m[k := r] - {k} == m;
  }

  lemma GatherPutBack(m: map<nat, Request>, k: nat, r: Request)
    ensures Gather(PutBack(m, k, r)) == Parts(r) + Gather(m - {k})
  {
    if Pending(r) {
      GatherInsert(m - {k}, k, r);
      assert (m - {k})[k := r] == m[k := r];
    }
  }

  /** A chunk counted in a table belongs to one of its requests. */
  lemma {:induction false} GatherMember(m: map<nat, Request>, c: Request)
    requires c in Gather(m)
    ensures exists k :: k in m && c in Parts(m[k])
    decreases m.Keys
  {
    var x := Max(m.Keys);
    if c !in Parts(m[x]) {
      GatherMember(m - {x}, c);
      var k :| k in m - {x} && c in Parts((m - {x})[k]);
      assert k in m && c in Parts(m[k]);
    }
  }

  /** Every request of the table carries its own key as push, so chunks of different
      entries differ and each chunk counts once. */
  ghost predicate Tagged(m: map<nat, Request>) { forall k :: k in m ==> NoWrap(m[k]) && m[k].push == k }

  lemma {:induction false} GatherCount(m: map<nat, Request>, c: Request)
    requires Tagged(m)
    ensures Gather(m)[c] == if c.push in m && c in Split(m[c.push]) then 1 else 0
    decreases m.Keys
  {
    if m != map[] {
      var x := Max(m.Keys);
      GatherCount(m - {x}, c);
      SplitDistinct(m[x], c);
    }
  }

  // ---------- the invariant ----------

  function InFlight(calls: map<nat, Call>): map<nat, Request> { map c | c in calls :: calls[c].chunk }

  ghost function Held(s: System): multiset<Request> {
    Gather(s.loops) + Gather(s.resends) + Gather(InFlight(s.calls)) + s.acked
  }

  ghost predicate WellPlaced(s: System) {
    && Tagged(s.pushes)
    && (forall p :: p in s.loops ==> p in s.pushes && NoWrap(s.loops[p]) && Pending(s.loops[p]) && s.loops[p].push == p)
    && (forall c :: c in s.resends ==>
         IsChunk(s.resends[c]) && c in s.history && s.history[c] == s.resends[c] && c !in s.calls)
    && (forall c :: c in s.calls ==> IsChunk(s.calls[c].chunk) && c in s.history && s.history[c] == s.calls[c].chunk)
  }

  /** No chunk is lost and none is duplicated: the chunks of all pushes are the undispatched
      ones, those awaiting a re-send, those in flight and those acknowledged. */
  ghost predicate InvPlaces(s: System) {
    WellPlaced(s) && Held(s) == Gather(s.pushes)
  }

  lemma PartsOfChunk(c: Request)
    requires IsChunk(c)
    ensures Parts(c) == multiset{c}
  {
    Resplit(c);
  }

  lemma PartsOfRest(r: Request)
    requires NoWrap(r) && Pending(r)
    ensures Parts(r) == multiset{First(r)} + Parts(Rest(r))
  {
    FirstIsChunk(r);
    assert multiset([First(r)] + Split(Rest(r))) == multiset{First(r)} + multiset(Split(Rest(r)));
  }

  lemma InFlightInsert(calls: map<nat, Call>, call: nat, c: Call)
    requires call !in calls && IsChunk(c.chunk)
    ensures Gather(InFlight(calls[call := c])) == multiset{c.chunk} + Gather(InFlight(calls))
  {
    assert InFlight(calls[call := c]) == InFlight(calls)[call := c.chunk];
    GatherInsert(InFlight(calls), call, c.chunk);
    PartsOfChunk(c.chunk);
  }

  lemma InFlightRemove(calls: map<nat, Call>, call: nat)
    requires call in calls && IsChunk(calls[call].chunk)
    ensures Gather(InFlight(calls)) == multiset{calls[call].chunk} + Gather(InFlight(calls - {call}))
  {
    assert InFlight(calls - {call}) == InFlight(calls) - {call};
    GatherRemove(InFlight(calls), call);
    PartsOfChunk(calls[call].chunk);
  }

  /** The four places add up the same when two of them trade. */
  lemma Trade(x: multiset<Request>, y: multiset<Request>, x': multiset<Request>, y': multiset<Request>,
              u: multiset<Request>, v: multiset<Request>)
    requires x + y == x' + y'
    ensures x + y + u + v == x' + y' + u + v
    ensures x + u + y + v == x' + u + y' + v
    ensures u + x + y + v == u + x' + y' + v
    ensures u + v + x + y == u + v + x' + y'
  {
    assert x + u + y + v == (x + y) + (u + v);
    assert x' + u + y' + v == (x' + y') + (u + v);
    assert u + x + y + v == (x + y) + (u + v);
    assert u + x' + y' + v == (x' + y') + (u + v);
    assert u + v + x + y == (x + y) + (u + v);
    assert u + v + x' + y' == (x' + y') + (u + v);
  }

  lemma Add(p: multiset<Request>, x: multiset<Request>, y: multiset<Request>, u: multiset<Request>,
            v: multiset<Request>)
    ensures (p + x) + y + u + v == p + (x + y + u + v)
  {
  }

  lemma BeginHeld(s: System, push: nat, r: Request)
    requires push !in s.pushes && push !in s.loops
    ensures Held(s.(pushes := s.pushes[push := r], loops := PutBack(s.loops, push, r))) == Parts(r) + Held(s)
    ensures Gather(s.pushes[push := r]) == Parts(r) + Gather(s.pushes)
  {
    GatherInsert(s.pushes, push, r);
    GatherPutBack(s.loops, push, r);
    assert s.loops - {push} == s.loops;
    Add(Parts(r), Gather(s.loops), Gather(s.resends), Gather(InFlight(s.calls)), s.acked);
  }

  lemma BeginWellPlaced(s: System, push: nat, r: Request)
    requires WellPlaced(s) && push !in s.pushes && NoWrap(r) && r.push == push
    ensures WellPlaced(s.(pushes := s.pushes[push := r], loops := PutBack(s.loops, push, r)))
  {
  }

  lemma BeginPlaces(s: System, push: nat, r: Request)
    requires InvPlaces(s) && push !in s.pushes && NoWrap(r) && r.push == push
    ensures InvPlaces(s.(pushes := s.pushes[push := r], loops := PutBack(s.loops, push, r)))
  {
    hide Gather, Parts, Decreased, Dispatched, NoWrap;
    assert push !in s.loops;
    BeginHeld(s, push, r);
    BeginWellPlaced(s, push, r);
  }

  /** Sending the first chunk of r moves it from the table that holds r into flight. */
  lemma SendBalance(m: map<nat, Request>, k: nat, calls: map<nat, Call>, call: nat, c: Call)
    requires k in m && NoWrap(m[k]) && Pending(m[k]) && call !in calls && c.chunk == First(m[k])
    ensures IsChunk(First(m[k])) && NoWrap(Rest(m[k]))
    ensures Gather(PutBack(m, k, Rest(m[k]))) + Gather(InFlight(calls[call := c])) ==
            Gather(m) + Gather(InFlight(calls))
  {
    var r := m[k];
    FirstIsChunk(r);
    GatherRemove(m, k);
    PartsOfRest(r);
    GatherPutBack(m, k, Rest(r));
    InFlightInsert(calls, call, c);
    MoveBetween(Parts(Rest(r)), Gather(m - {k}), multiset{First(r)}, Gather(InFlight(calls)));
  }

  lemma MoveBetween(rest: multiset<Request>, others: multiset<Request>, first: multiset<Request>,
                    flying: multiset<Request>)
    ensures (rest + others) + (first + flying) == (first + rest + others) + flying
  {
  }

  lemma SendNextWellPlaced(s: System, push: nat, svrId: nat, call: nat)
    requires WellPlaced(s) && push in s.loops && call !in s.history
    requires IsChunk(First(s.loops[push])) && NoWrap(Rest(s.loops[push]))
    ensures var r := s.loops[push];
            WellPlaced(Started(s, svrId, First(r), call).(loops := PutBack(s.loops, push, Rest(r))))
  {
  }

  lemma SendNextPlaces(s: System, push: nat, svrId: nat, call: nat)
    requires InvPlaces(s) && push in s.loops && call !in s.history
    ensures var r := s.loops[push];
            InvPlaces(Started(s, svrId, First(r), call).(loops := PutBack(s.loops, push, Rest(r))))
  {
    hide Gather, Parts, Decreased, Dispatched, NoWrap;
    var r := s.loops[push];
    var c := Call(svrId, First(r), Flying);
    SendBalance(s.loops, push, s.calls, call, c);
    Trade(Gather(PutBack(s.loops, push, Rest(r))), Gather(InFlight(s.calls[call := c])),
          Gather(s.loops), Gather(InFlight(s.calls)), Gather(s.resends), s.acked);
    SendNextWellPlaced(s, push, svrId, call);
  }

  lemma SendAgainWellPlaced(s: System, failed: nat, svrId: nat, call: nat)
    requires WellPlaced(s) && failed in s.resends && call !in s.history
    requires First(s.resends[failed]) == s.resends[failed] && !Pending(Rest(s.resends[failed]))
    ensures var r := s.resends[failed];
            WellPlaced(Started(s, svrId, First(r), call).(resends := PutBack(s.resends, failed, Rest(r))))
  {
  }

  lemma SendAgainPlaces(s: System, failed: nat, svrId: nat, call: nat)
    requires InvPlaces(s) && failed in s.resends && call !in s.history
    ensures var r := s.resends[failed];
            InvPlaces(Started(s, svrId, First(r), call).(resends := PutBack(s.resends, failed, Rest(r))))
  {
    hide Gather, Parts, Decreased, Dispatched, NoWrap;
    var r := s.resends[failed];
    var c := Call(svrId, First(r), Flying);
    Resplit(r);
    ChunkRests(r);
    assert call !in s.calls;
    SendBalance(s.resends, failed, s.calls, call, c);
    Trade(Gather(PutBack(s.resends, failed, Rest(r))), Gather(InFlight(s.calls[call := c])),
          Gather(s.resends), Gather(InFlight(s.calls)), Gather(s.loops), s.acked);
    SendAgainWellPlaced(s, failed, svrId, call);
  }

  lemma ChunkRests(c: Request)
    requires IsChunk(c)
    ensures First(c) == c && !Pending(Rest(c))
  {
    NoWrapStep(c);
  }

  lemma AckPlaces(s: System, call: nat)
    requires InvPlaces(s) && call in s.calls
    ensures InvPlaces(Finished(s, call).(acked := s.acked + multiset{s.calls[call].chunk}))
  {
    hide Gather, Parts, Decreased, Dispatched, NoWrap;
    var chunk := s.calls[call].chunk;
    InFlightRemove(s.calls, call);
    Trade(Gather(InFlight(s.calls - {call})), s.acked + multiset{chunk},
          Gather(InFlight(s.calls)), s.acked, Gather(s.loops), Gather(s.resends));
  }

  lemma ResendHeld(s: System, call: nat)
    requires call in s.calls && call !in s.resends && IsChunk(s.calls[call].chunk)
    ensures Gather(s.resends[call := s.calls[call].chunk]) + Gather(InFlight(s.calls - {call}))
            == Gather(s.resends) + Gather(InFlight(s.calls))
  {
    InFlightRemove(s.calls, call);
    GatherInsert(s.resends, call, s.calls[call].chunk);
    PartsOfChunk(s.calls[call].chunk);
  }

  lemma ResendWellPlaced(s: System, call: nat)
    requires WellPlaced(s) && call in s.calls
    ensures WellPlaced(Finished(s, call).(resends := s.resends[call := s.calls[call].chunk]))
  {
  }

  lemma ResendPlaces(s: System, call: nat)
    requires InvPlaces(s) && call in s.calls
    ensures InvPlaces(Finished(s, call).(resends := s.resends[call := s.calls[call].chunk]))
  {
    hide Gather, Parts, Decreased, Dispatched, NoWrap;
    var chunk := s.calls[call].chunk;
    ResendHeld(s, call);
    Trade(Gather(s.resends[call := chunk]), Gather(InFlight(s.calls - {call})),
          Gather(s.resends), Gather(InFlight(s.calls)), Gather(s.loops), s.acked);
    ResendWellPlaced(s, call);
  }

  lemma DaemonPlaces(s: System, d: State, inherited: map<nat, nat>, registrations: nat)
    requires InvPlaces(s)
    ensures InvPlaces(s.(daemon := d, inherited := inherited, registrations := registrations))
  {
    assert Held(s.(daemon := d, inherited := inherited, registrations := registrations)) == Held(s);
  }

  lemma ChargePlaces(s: System, call: nat, d: State)
    requires InvPlaces(s) && call in s.calls
    ensures InvPlaces(s.(daemon := d, calls := s.calls[call := s.calls[call].(phase := Charged)]))
  {
    hide Gather, Parts, Decreased, Dispatched, NoWrap;
    assert InFlight(s.calls[call := s.calls[call].(phase := Charged)]) == InFlight(s.calls);
  }

  lemma PlacesStep(s: System, e: Event)
    requires InvPlaces(s) && Enabled(s, e)
    ensures InvPlaces(Step(s, e))
  {
    hide InvPlaces, Started, Finished;
    var s' := Step(s, e);
    match e
    case BeginPush(push, msg, start, end) => BeginPlaces(s, push, Request(push, msg, start, end));
    case SendNext(push, draw, call) =>
      if Choose(s.daemon, draw).Send? { SendNextPlaces(s, push, Choose(s.daemon, draw).svrId, call); }
    case SendAgain(failed, draw, call) =>
      if Choose(s.daemon, draw).Send? { SendAgainPlaces(s, failed, Choose(s.daemon, draw).svrId, call); }
    case Acknowledge(call) => AckPlaces(s, call);
    case Refuse(call) => ResendPlaces(s, call);
    case GiveUp(call) => ResendPlaces(s, call);
    case Charge(call) => ChargePlaces(s, call, s'.daemon);
    case _ => DaemonPlaces(s, s'.daemon, s'.inherited, s'.registrations);
  }
}
