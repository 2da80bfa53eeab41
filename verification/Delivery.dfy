/** The whole path of a push as one state machine: the daemon's calls, the producers' cached
    key and the broker sessions run side by side. */
module Delivery {
  import opened Words
  import opened Bits
  import opened Redis
  import opened Chunking
  import opened Producer
  import opened History
  import P = PushSystem
  import T = PushTheorems
  import C = CacheProtocol
  import S = SendSession

  /** A producer's ProduceMsg handler. `view` names the published bitmaps whose intersection
      its GETRANGE showed. */
  datatype Handler = Handler(session: S.Session, view: C.Releases)

  /** handlers holds, per call, the handler that has read its range. It stays when the call
      fails: the handler goes on sending. `lost` are the calls whose handler returned on a
      Redis error. A handler that is in the cache protocol is named by its call. */
  datatype World = World(daemon: P.System, cache: C.Cache, handlers: map<nat, Handler>, lost: set<nat>)

  /** Serve: the handler of a call reads the range of its chunk. */
  datatype Event =
    | Daemon(d: P.Event)
    | Cache(c: C.Event)
    | Serve(call: nat, view: C.Releases)
    | Broker(call: nat, b: S.Event)

  /** The byte range of a chunk lies inside the cached key. */
  predicate Readable(c: C.Cache, chunk: Request) {
    c.tmp.Some? && chunk.end / BITS_PER_BYTE < |c.tmp.value|
  }

  /** The cached key holds the intersection of releases it may still show. */
  ghost predicate Viewed(c: C.Cache, view: C.Releases) {
    c.tmp.Some? && c.tmp.value == C.Intersection(view) && view in c.seen
  }

  /** The reply the producer has sent for a call: what stands in the call object when Finish
      is called. A handler that has not read its range has not called it. */
  function Answer(w: World, call: nat): Option<S.ErrCode> {
    if call in w.handlers && w.handlers[call].session.count.finished then Some(w.handlers[call].session.count.err)
    else None
  }

  /** A call whose handler has neither read its range nor given up. */
  predicate Unserved(w: World, call: nat) { call in w.daemon.history && call !in w.handlers && call !in w.lost }

  /** The handler's part of ProduceMsg ends with an error: a command failed, or the
      intersection is empty. */
  predicate Returns(c: C.Cache, e: C.Event) {
    e.Quit? || (e.BitOp? && e.answered && C.Intersection(c.releases) == [])
  }

  /** The daemon sees SUCCESS or ERR only if the producer sent it; RPC failures may arrive at
      any time, and so may updates of the published bitmaps. A call reaches a handler at most
      once. */
  ghost predicate Enabled(w: World, e: Event) {
    match e
    case Daemon(d) =>
      && P.Enabled(w.daemon, d)
      && (d.Acknowledge? ==> Answer(w, d.call) == Some(S.SUCCESS))
      && (d.Refuse? ==> Answer(w, d.call) == Some(S.ERR))
    case Cache(c) => C.Enabled(w.cache, c) && !c.Read? && (c.AskExists? || c.Quit? ==> Unserved(w, c.p))
    case Serve(call, view) =>
      && Unserved(w, call) && C.Enabled(w.cache, C.Read(call))
      && Readable(w.cache, w.daemon.history[call]) && Viewed(w.cache, view)
    case Broker(call, b) => call in w.handlers && S.Enabled(w.handlers[call].session, b)
  }

  ghost function Step(w: World, e: Event): World
    requires Enabled(w, e)
  {
    match e
    case Daemon(d) => w.(daemon := P.Step(w.daemon, d))
    case Cache(c) => w.(cache := C.Step(w.cache, c), lost := if Returns(w.cache, c) then w.lost + {c.p} else w.lost)
    case Serve(call, view) =>
      var chunk := w.daemon.history[call];
      w.(cache := C.Step(w.cache, C.Read(call)),
         handlers := w.handlers[call := Handler(S.Begin(Pushed(w.cache.tmp.value, chunk.start, chunk.end)), view)])
    case Broker(call, b) =>
      w.(handlers := w.handlers[call := w.handlers[call].(session := S.Step(w.handlers[call].session, b))])
  }

  ghost predicate Next(w: World, e: Event, w': World) { Enabled(w, e) && w' == Step(w, e) }

  datatype Run = Run(states: seq<World>, events: seq<Event>)

  /** A run starts with an empty daemon and no handlers; the cache may be in any state that
      satisfies its invariant and that no handler is at work on. */
  ghost predicate Starts(w: World) {
    w.daemon == P.INITIAL && w.handlers == map[] && w.lost == {} && C.Inv(w.cache) && w.cache.places == map[]
  }

  ghost predicate IsRun(r: Run) {
    && |r.states| == |r.events| + 1
    && Starts(r.states[0])
    && forall i :: 0 <= i < |r.events| ==> Next(r.states[i], r.events[i], r.states[i + 1])
  }

  // ---------- invariants ----------

  /** A handler works on the chunk of its call, read from the intersection of its view. */
  ghost predicate Serves(h: Handler, chunk: Request) {
    && S.Inv(h.session)
    && chunk.end / BITS_PER_BYTE < |C.Intersection(h.view)|
    && h.session.uids == Pushed(C.Intersection(h.view), chunk.start, chunk.end)
  }

  ghost predicate HandlerInv(w: World) {
    forall c :: c in w.handlers ==> c in w.daemon.history && Serves(w.handlers[c], w.daemon.history[c])
  }

  /** Some handler of this chunk has had every uid confirmed. */
  ghost predicate Done(w: World, chunk: Request) {
    exists c :: c in w.handlers && DoneBy(w, c, chunk)
  }

  ghost predicate DoneBy(w: World, c: nat, chunk: Request)
    requires c in w.handlers
  {
    c in w.daemon.history && w.daemon.history[c] == chunk && w.handlers[c].session.count.finished
  }

  ghost predicate AckInv(w: World) {
    forall chunk :: chunk in w.daemon.acked ==> Done(w, chunk)
  }

  /** A call is with at most one of: a handler still busy with Redis, a handler that sends, a
      handler that gave up. */
  ghost predicate CallInv(w: World) {
    && (forall c :: c in w.lost ==> c in w.daemon.history && c !in w.handlers)
    && (forall c :: c in w.cache.places ==> Unserved(w, c))
  }

  ghost predicate Inv(w: World) {
    T.Inv(w.daemon) && C.Inv(w.cache) && HistoryInv(w.daemon) && HandlerInv(w) && AckInv(w) && CallInv(w)
  }

  lemma DaemonStep(w: World, d: P.Event)
    requires Inv(w) && Enabled(w, Daemon(d))
    ensures Inv(Step(w, Daemon(d)))
  {
    hide P.Step, P.Enabled, T.Inv, Serves, C.Inv, HistoryInv;
    HistoryStep(w.daemon, d);
    DaemonTrace(w.daemon, d);
    var w' := Step(w, Daemon(d));
    forall chunk | chunk in w'.daemon.acked ensures Done(w', chunk) {
      if chunk in w.daemon.acked {
        var c :| c in w.handlers && DoneBy(w, c, chunk);
        assert DoneBy(w, c, chunk);
        assert DoneBy(w', c, chunk);
      } else {
        CallsInHistory(w.daemon, d);
        assert DoneBy(w', d.call, chunk);
      }
    }
  }

  lemma CallsInHistory(s: P.System, e: P.Event)
    requires T.Inv(s) && P.Enabled(s, e) && e.Acknowledge?
    ensures e.call in s.calls && e.call in s.history && s.history[e.call] == s.calls[e.call].chunk
  {
  }

  /** A chunk has few uids, so the 32-bit countdown can hold their number. */
  lemma PushedIsShort(bm: Bitmap, chunk: Request)
    requires IsChunk(chunk) && chunk.end / BITS_PER_BYTE < |bm|
    ensures |Pushed(bm, chunk.start, chunk.end)| < U32
  {
    hide GetRange, DecodeBits, HasUid;
    var info := GetRange(bm, chunk.start / BITS_PER_BYTE, chunk.end / BITS_PER_BYTE);
    RangeBits(bm, chunk.start, chunk.end, 0);
    DecodedBits(info, chunk.start, BITS_PER_BYTE * |info|);
  }

  lemma SplitIsChunks(r: Request, c: Request)
    requires NoWrap(r) && c in Split(r)
    ensures IsChunk(c)
  {
    SplitShape(r);
    var i :| 0 <= i < |Split(r)| && Split(r)[i] == c;
    assert c == ChunkAt(r, i) && Pending(c);
  }

  lemma BeginServes(view: C.Releases, chunk: Request)
    requires IsChunk(chunk) && chunk.end / BITS_PER_BYTE < |C.Intersection(view)|
    ensures Serves(Handler(S.Begin(Pushed(C.Intersection(view), chunk.start, chunk.end)), view), chunk)
  {
    hide Pushed, C.Intersection;
    PushedIsShort(C.Intersection(view), chunk);
    S.BeginInv(Pushed(C.Intersection(view), chunk.start, chunk.end));
  }

  /** A step that keeps the daemon and leaves finished handlers finished keeps AckInv. */
  lemma AckKept(w: World, w': World)
    requires AckInv(w) && w'.daemon == w.daemon
    requires forall c :: c in w.handlers ==>
               c in w'.handlers && (w.handlers[c].session.count.finished ==> w'.handlers[c] == w.handlers[c])
    ensures AckInv(w')
  {
    forall a | a in w'.daemon.acked ensures Done(w', a) {
      var c :| c in w.handlers && DoneBy(w, c, a);
      assert DoneBy(w, c, a);
      assert DoneBy(w', c, a);
    }
  }

  lemma ServeCalls(w: World, call: nat, view: C.Releases)
    requires CallInv(w) && Enabled(w, Serve(call, view))
    ensures CallInv(Step(w, Serve(call, view)))
  {
    hide Pushed, C.Intersection, S.Begin, P.Enabled, P.Step;
  }

  lemma CacheCalls(w: World, c: C.Event)
    requires CallInv(w) && Enabled(w, Cache(c))
    ensures CallInv(Step(w, Cache(c)))
  {
    hide C.Intersection, P.Enabled, P.Step;
  }

  lemma ServeStep(w: World, call: nat, view: C.Releases)
    requires Inv(w) && Enabled(w, Serve(call, view))
    ensures Inv(Step(w, Serve(call, view)))
  {
    hide T.Inv, Split, NoWrap, Pushed, C.Intersection, C.Inv, C.Step, S.Begin, S.Inv, IsChunk, AckInv, CallInv;
    var chunk := w.daemon.history[call];
    C.InvStep(w.cache, C.Read(call));
    ServeCalls(w, call, view);
    assert FromPush(w.daemon, chunk);
    SplitIsChunks(w.daemon.pushes[chunk.push], chunk);
    BeginServes(view, chunk);
    AckKept(w, Step(w, Serve(call, view)));
  }

  lemma BrokerSession(s: S.Session, b: S.Event)
    requires S.Inv(s) && S.Enabled(s, b)
    ensures S.Inv(S.Step(s, b)) && S.Step(s, b).uids == s.uids
    ensures !s.count.finished
  {
    S.InvStep(s, b);
    S.ActiveUntilReply(s);
  }

  lemma BrokerStep(w: World, call: nat, b: S.Event)
    requires Inv(w) && Enabled(w, Broker(call, b))
    ensures Inv(Step(w, Broker(call, b)))
  {
    hide T.Inv, HistoryInv, C.Inv, Pushed, C.Intersection, S.Inv, S.Step, S.Enabled, AckInv;
    BrokerSession(w.handlers[call].session, b);
    AckKept(w, Step(w, Broker(call, b)));
  }

  lemma CacheEventStep(w: World, c: C.Event)
    requires Inv(w) && Enabled(w, Cache(c))
    ensures Inv(Step(w, Cache(c)))
  {
    hide T.Inv, HistoryInv, C.Step, C.Inv, C.Enabled, Serves, AckInv, CallInv;
    C.InvStep(w.cache, c);
    CacheCalls(w, c);
    AckKept(w, Step(w, Cache(c)));
  }

  lemma InitialInv(w: World)
    requires Starts(w)
    ensures Inv(w)
  {
    hide T.Inv, C.Inv;
    T.InitialInv();
  }

  lemma InvStep(w: World, e: Event)
    requires Inv(w) && Enabled(w, e)
    ensures Inv(Step(w, e))
  {
    hide Inv, Step, Enabled;
    match e
    case Daemon(d) => DaemonStep(w, d);
    case Cache(c) => CacheEventStep(w, c);
    case Serve(call, view) => ServeStep(w, call, view);
    case Broker(call, b) => BrokerStep(w, call, b);
  }

  lemma {:induction false} InvHolds(r: Run, n: nat)
    requires IsRun(r) && n <= |r.events|
    ensures Inv(r.states[n])
  {
    hide Inv, Step, Enabled;
    if n == 0 {
      InitialInv(r.states[0]);
    } else {
      InvHolds(r, n - 1);
      assert Next(r.states[n - 1], r.events[n - 1], r.states[n - 1 + 1]);
      InvStep(r.states[n - 1], r.events[n - 1]);
    }
  }
}
