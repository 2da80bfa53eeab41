/** Who receives a push: the end-to-end theorems about every run of the whole system. */
module Recipients {
  import opened Bits
  import opened Chunking
  import opened Producer
  import opened Reach
  import opened History
  import opened Delivery
  import P = PushSystem
  import T = PushTheorems
  import F = FlowControl
  import G = Conservation
  import C = CacheProtocol
  import S = SendSession
  import U = UserInfoUpdate

  /** The broker has confirmed uid u in this session. */
  ghost predicate Confirms(session: S.Session, u: nat) {
    exists i :: 0 <= i < |session.uids| && i < |session.messages| && session.uids[i] == u &&
      session.messages[i] == S.Confirmed
  }

  /** The call c belongs to the push and has reached a handler. */
  ghost predicate HandlerOf(w: World, push: nat, c: nat) {
    c in w.handlers && c in w.daemon.history && w.daemon.history[c].push == push
  }

  ghost predicate ConfirmedBy(w: World, push: nat, c: nat, u: nat) {
    HandlerOf(w, push, c) && Confirms(w.handlers[c].session, u)
  }

  ghost predicate Receives(w: World, push: nat, u: nat) { exists c :: ConfirmedBy(w, push, c, u) }

  /** u is set in all three bitmaps. */
  predicate InAll(rel: C.Releases, u: nat) { HasUid(rel.r0, u) && HasUid(rel.r1, u) && HasUid(rel.r2, u) }

  lemma IntersectionBits(rel: C.Releases, u: nat)
    ensures HasUid(C.Intersection(rel), u) <==> InAll(rel, u)
  {
    hide HasUid, And3;
    AndIntersects(rel.r0, rel.r1, rel.r2, u);
  }

  lemma FinishedConfirms(s: S.Session, u: nat)
    requires S.Inv(s) && s.count.finished && u in s.uids
    ensures Confirms(s, u)
  {
    var i :| 0 <= i < |s.uids| && s.uids[i] == u;
    assert i !in S.Unconfirmed(s.messages);
    assert s.messages[i] == S.Confirmed;
  }

  /** The call's handler pushes to exactly the uids in reach of its chunk whose bits are set
      in its view. */
  lemma ServesExactly(h: Handler, chunk: Request, u: nat)
    requires Serves(h, chunk) && Pending(chunk)
    ensures u in h.session.uids <==> InReach(chunk, u) && InAll(h.view, u - Shift(chunk))
    ensures StrictlyIncreasing(h.session.uids)
  {
    hide HasUid, Pushed, InAll, C.Intersection;
    PushedExactly(C.Intersection(h.view), chunk.start, chunk.end, u);
    if u >= Shift(chunk) { IntersectionBits(h.view, u - Shift(chunk)); }
  }

  /** A handler of a push works on one of its chunks. */
  lemma HandlerChunk(w: World, push: nat, c: nat) returns (i: nat)
    requires Inv(w) && HandlerOf(w, push, c)
    ensures push in w.daemon.pushes
    ensures var r := w.daemon.pushes[push];
            && NoWrap(r) && i < |Split(r)| && Split(r)[i] == w.daemon.history[c]
            && Pending(Split(r)[i]) && Shift(Split(r)[i]) == Shift(r)
            && Serves(w.handlers[c], Split(r)[i])
  {
    hide T.Inv, C.Inv, AckInv, CallInv, Split, NoWrap, Serves;
    var chunk := w.daemon.history[c];
    assert FromPush(w.daemon, chunk);
    var r := w.daemon.pushes[push];
    i :| 0 <= i < |Split(r)| && Split(r)[i] == chunk;
    SplitShape(r);
    ChunkBytes(r, r.start);
  }

  /** Whoever has received the message is in reach of the push, and the bit it was decoded
      from is set in all three bitmaps its handler read; this holds at any time. */
  lemma OnlyTargets(r: Run, n: nat, push: nat, c: nat, u: nat)
    requires IsRun(r) && n <= |r.events|
    requires ConfirmedBy(r.states[n], push, c, u)
    ensures push in r.states[n].daemon.pushes
    ensures var p := r.states[n].daemon.pushes[push];
            InReach(p, u) && InAll(r.states[n].handlers[c].view, u - Shift(p))
  {
    hide Inv, InAll, Split, NoWrap, Serves, InReach, Next;
    var w := r.states[n];
    InvHolds(r, n);
    var i := HandlerChunk(w, push, c);
    ServesExactly(w.handlers[c], w.daemon.history[c], u);
    ChunkBytes(w.daemon.pushes[push], u);
    assert InReach(w.daemon.pushes[push], u);
    ReachStarts(w.daemon.pushes[push], u);
  }

  lemma ConfirmedInReach(w: World, push: nat, c: nat, u: nat)
    requires ConfirmedBy(w, push, c, u) && Inv(w)
    ensures Targets(w.daemon.history[c], w.handlers[c].view, u)
  {
    hide Inv, InAll, Split, NoWrap, Serves;
    var i := HandlerChunk(w, push, c);
    ServesExactly(w.handlers[c], w.daemon.history[c], u);
  }

  lemma ReachStarts(r: Request, u: nat)
    ensures InReach(r, u) ==> r.start <= u && Shift(r) <= u
  {
  }

  /** The push is the request that was received for it, and every handler of the push sends
      the message that was asked for, about a part of the range that was asked for. */
  lemma {:induction false} SendsWhatWasAsked(r: Run, m: nat, n: nat, e: P.Event)
    requires IsRun(r) && m < n <= |r.events| && r.events[m] == Daemon(e) && e.BeginPush?
    ensures var w := r.states[n];
            && e.push in w.daemon.pushes && w.daemon.pushes[e.push] == Asked(e)
            && forall c :: HandlerOf(w, e.push, c) ==>
                 var chunk := w.daemon.history[c];
                 chunk.msg == e.msg && e.start <= chunk.start <= chunk.end <= e.end
    decreases n
  {
    hide Inv, Step, Enabled, Split, NoWrap;
    AskedStays(r, m, n, e);
    InvHolds(r, n);
    var w := r.states[n];
    forall c | HandlerOf(w, e.push, c)
      ensures w.daemon.history[c].msg == e.msg
      ensures e.start <= w.daemon.history[c].start <= w.daemon.history[c].end <= e.end
    {
      var i := HandlerChunk(w, e.push, c);
      SplitShape(Asked(e));
      assert Split(Asked(e))[i] == ChunkAt(Asked(e), i);
    }
  }

  lemma {:induction false} AskedStays(r: Run, m: nat, n: nat, e: P.Event)
    requires IsRun(r) && m < n <= |r.events| && r.events[m] == Daemon(e) && e.BeginPush?
    ensures e.push in r.states[n].daemon.pushes && r.states[n].daemon.pushes[e.push] == Asked(e)
    decreases n
  {
    hide Inv, P.Step, P.Enabled, C.Step, C.Enabled, S.Step, S.Enabled, S.Begin, Pushed, C.Intersection;
    assert Next(r.states[n - 1], r.events[n - 1], r.states[n - 1 + 1]);
    var e' := r.events[n - 1];
    if e'.Daemon? { PushStep(r.states[n - 1].daemon, e'.d); }
    if m < n - 1 { AskedStays(r, m, n - 1, e); }
  }

  /** Once a push has settled, every chunk of it has a handler that finished. */
  lemma SettledIsDone(w: World, push: nat, i: nat)
    requires Inv(w) && T.Settled(w.daemon, push)
    requires NoWrap(w.daemon.pushes[push]) && i < |Split(w.daemon.pushes[push])|
    ensures exists c :: HandlerOf(w, push, c) && DoneBy(w, c, Split(w.daemon.pushes[push])[i])
  {
    hide C.Inv, HistoryInv, HandlerInv, CallInv, Split, NoWrap, P.InvRegistry, F.InvFlow, F.InvAccount, G.Gather;
    var r := w.daemon.pushes[push];
    var chunk := Split(r)[i];
    assert chunk in Split(r);
    T.SettledMeansAcked(w.daemon, push, chunk);
    SplitDistinct(r, chunk);
    assert chunk in w.daemon.acked;
    var c :| c in w.handlers && DoneBy(w, c, chunk);
    assert DoneBy(w, c, chunk);
    assert r.push == push;
    assert HandlerOf(w, push, c);
  }

  lemma SettledNoWrap(w: World, push: nat)
    requires Inv(w) && T.Settled(w.daemon, push)
    ensures push in w.daemon.pushes && NoWrap(w.daemon.pushes[push])
  {
    hide NoWrap, C.Inv, HistoryInv, HandlerInv, AckInv, CallInv, P.InvRegistry, F.InvFlow, F.InvAccount;
  }

  /** u is in reach, and the bit it is decoded from is in all three of these bitmaps. */
  predicate Targets(r: Request, rel: C.Releases, u: nat) { InReach(r, u) && InAll(rel, u - Shift(r)) }

  /** The handlers of the push whose chunks reach u have all read bitmaps that agree whether
      the bit u is decoded from is in all three. What the handlers of other chunks read does
      not matter. */
  ghost predicate Agreed(w: World, push: nat, u: nat, target: bool) {
    forall c :: HandlerOf(w, push, c) ==> ReadAs(w.handlers[c].view, w.daemon.history[c], u, target)
  }

  /** A handler of this chunk, if it reaches u, has read u's bit as set or not set. */
  predicate ReadAs(view: C.Releases, chunk: Request, u: nat, target: bool) {
    InReach(chunk, u) ==> (InAll(view, u - Shift(chunk)) <==> target)
  }

  lemma SettledKnown(s: P.System, push: nat)
    requires T.Settled(s, push)
    ensures push in s.pushes
  {
  }

  /** A finished chunk has reached the targets in its reach. */
  lemma ChunkDelivered(w: World, push: nat, i: nat, u: nat) returns (c: nat)
    requires Inv(w) && T.Settled(w.daemon, push)
    requires NoWrap(w.daemon.pushes[push]) && i < |Split(w.daemon.pushes[push])|
    requires InReach(Split(w.daemon.pushes[push])[i], u) && Agreed(w, push, u, true)
    ensures ConfirmedBy(w, push, c, u) && w.daemon.history[c] == Split(w.daemon.pushes[push])[i]
  {
    hide T.Settled, Inv, InAll, Split, NoWrap, S.Inv, Pushed, InReach, Confirms, Shift;
    SettledKnown(w.daemon, push);
    var r := w.daemon.pushes[push];
    SettledIsDone(w, push, i);
    c :| HandlerOf(w, push, c) && DoneBy(w, c, Split(r)[i]);
    assert HandlerOf(w, push, c) && DoneBy(w, c, Split(r)[i]);
    var j := HandlerChunk(w, push, c);
    ServesExactly(w.handlers[c], Split(r)[i], u);
    FinishedConfirms(w.handlers[c].session, u);
    assert ConfirmedBy(w, push, c, u);
  }

  lemma EveryTarget(w: World, push: nat, u: nat)
    requires Inv(w) && T.Settled(w.daemon, push) && InReach(w.daemon.pushes[push], u) && Agreed(w, push, u, true)
    ensures Receives(w, push, u)
  {
    hide T.Settled, Inv, Split, NoWrap, InReach, Shared, Shift, Agreed, ConfirmedBy;
    SettledKnown(w.daemon, push);
    var r := w.daemon.pushes[push];
    SettledNoWrap(w, push);
    ReachStarts(r, u);
    ChunkBytes(r, u);
    var i :| 0 <= i < |Split(r)| && InReach(Split(r)[i], u);
    var c := ChunkDelivered(w, push, i, u);
    assert ConfirmedBy(w, push, c, u);
  }

  /** End-to-end delivery under concurrent updates: once nothing of a push is left in the
      daemon, a uid in its reach has been confirmed by the broker exactly if the bit it is
      decoded from is in all three bitmaps, as far as the handlers that read this bit agree on
      it, and nobody out of reach has; whatever failed or was re-sent on the way. For a start that
      is a multiple of 8 the bit is the uid's own and the reach is start..LastBit(end). */
  lemma DeliversExactly(r: Run, n: nat, push: nat, u: nat, target: bool)
    requires IsRun(r) && n <= |r.events| && T.Settled(r.states[n].daemon, push)
    requires Agreed(r.states[n], push, u, target)
    ensures Receives(r.states[n], push, u) <==> InReach(r.states[n].daemon.pushes[push], u) && target
  {
    hide T.Settled, Inv, InAll, Confirms, InReach, Shift;
    var w := r.states[n];
    InvHolds(r, n);
    SettledNoWrap(w, push);
    ReachStarts(w.daemon.pushes[push], u);
    if Receives(w, push, u) {
      var c :| ConfirmedBy(w, push, c, u);
      assert ConfirmedBy(w, push, c, u);
      OnlyTargets(r, n, push, c, u);
      ConfirmedInReach(w, push, c, u);
    }
    if InReach(w.daemon.pushes[push], u) && target { EveryTarget(w, push, u); }
  }

  /** Whatever the handlers of the push read about the uids of their chunks agrees with these
      releases. */
  ghost predicate AgreedOn(w: World, push: nat, rel: C.Releases)
    requires push in w.daemon.pushes
  {
    forall u: nat :: Agreed(w, push, u, Targets(w.daemon.pushes[push], rel, u))
  }

  /** u is beyond the requested end, yet its bit is in the last byte read and in all three
      bitmaps. */
  predicate Beyond(r: Request, rel: C.Releases, u: nat) { u > r.end && Targets(r, rel, u) }

  /** Exactly when a settled push has reached somebody beyond its end_uid: if one of the bits
      that fill up the last byte is in all three bitmaps. For a start that is a multiple of 8
      that is some uid in (end_uid, LastBit(end_uid)] in all three. */
  lemma ReachesBeyondEndIff(r: Run, n: nat, push: nat, rel: C.Releases)
    requires IsRun(r) && n <= |r.events| && T.Settled(r.states[n].daemon, push) && AgreedOn(r.states[n], push, rel)
    ensures var w, p := r.states[n], r.states[n].daemon.pushes[push];
            && ((exists u: nat :: u > p.end && Receives(w, push, u)) <==> exists u: nat :: Beyond(p, rel, u))
            && (Shift(p) == 0 && Pending(p) ==>
                  ((exists u: nat :: Beyond(p, rel, u)) <==>
                     exists u: nat :: p.end < u <= LastBit(p.end) && InAll(rel, u)))
  {
    hide T.Settled, InAll, Receives, AgreedOn;
    SettledKnown(r.states[n].daemon, push);
    var w, p := r.states[n], r.states[n].daemon.pushes[push];
    forall u: nat ensures u > p.end ==> (Receives(w, push, u) <==> Beyond(p, rel, u)) {
      ReceivesBeyond(r, n, push, rel, u);
    }
    if u: nat :| u > p.end && Receives(w, push, u) { assert Beyond(p, rel, u); }
    if u: nat :| Beyond(p, rel, u) { assert u > p.end && Receives(w, push, u); }
    if Shift(p) == 0 && Pending(p) {
      forall u: nat ensures Beyond(p, rel, u) <==> p.end < u <= LastBit(p.end) && InAll(rel, u) { }
    }
  }

  lemma ReceivesBeyond(r: Run, n: nat, push: nat, rel: C.Releases, u: nat)
    requires IsRun(r) && n <= |r.events| && T.Settled(r.states[n].daemon, push) && AgreedOn(r.states[n], push, rel)
    requires push in r.states[n].daemon.pushes
    ensures var p := r.states[n].daemon.pushes[push];
            u > p.end ==> (Receives(r.states[n], push, u) <==> Beyond(p, rel, u))
  {
    hide T.Settled, InAll, Receives, Agreed, Shift;
    var p := r.states[n].daemon.pushes[push];
    assert Agreed(r.states[n], push, u, Targets(p, rel, u));
    DeliversExactly(r, n, push, u, Targets(p, rel, u));
  }

  /** No chunk of this push has been sent twice. */
  ghost predicate NoResend(s: P.System, push: nat) {
    forall c, c' :: c in s.history && c' in s.history && c != c' && s.history[c] == s.history[c'] ==>
      s.history[c].push != push
  }

  /** Without re-sends a uid that two chunks do not share receives the message at most once:
      one call and, in its handler, one position confirm it. This holds at any time, settled
      or not, and in a push that starts on a byte boundary no uid is shared. */
  lemma DeliversOnce(r: Run, n: nat, push: nat, c: nat, c': nat, u: nat)
    requires IsRun(r) && n <= |r.events| && NoResend(r.states[n].daemon, push)
    requires ConfirmedBy(r.states[n], push, c, u) && ConfirmedBy(r.states[n], push, c', u)
    ensures push in r.states[n].daemon.pushes
    ensures StrictlyIncreasing(r.states[n].handlers[c].session.uids)
    ensures c == c' || Shared(r.states[n].daemon.pushes[push], u)
  {
    hide Inv, InAll, Split, NoWrap, Serves, InReach, Shared, Next, Shift;
    var w := r.states[n];
    InvHolds(r, n);
    var i := HandlerChunk(w, push, c);
    var j := HandlerChunk(w, push, c');
    ServesExactly(w.handlers[c], w.daemon.history[c], u);
    ServesExactly(w.handlers[c'], w.daemon.history[c'], u);
    ChunkBytes(w.daemon.pushes[push], u);
    if i != j {
      var lo, hi := if i < j then i else j, if i < j then j else i;
      assert InReach(Split(w.daemon.pushes[push])[lo], u) && InReach(Split(w.daemon.pushes[push])[hi], u);
    }
  }

  ghost predicate Twice(w: World, push: nat, u: nat) {
    exists c, c' :: c != c' && ConfirmedBy(w, push, c, u) && ConfirmedBy(w, push, c', u)
  }

  /** Exactly who gets a settled push twice although no chunk was sent twice: the targets that
      two chunks share. */
  lemma TwiceIffShared(r: Run, n: nat, push: nat, u: nat)
    requires IsRun(r) && n <= |r.events| && T.Settled(r.states[n].daemon, push) && NoResend(r.states[n].daemon, push)
    requires InReach(r.states[n].daemon.pushes[push], u) && Agreed(r.states[n], push, u, true)
    ensures Twice(r.states[n], push, u) <==> Shared(r.states[n].daemon.pushes[push], u)
  {
    hide T.Settled, Inv, Split, NoWrap, InReach, Shared, Agreed, ConfirmedBy, NoResend;
    var w := r.states[n];
    SettledKnown(w.daemon, push);
    var p := w.daemon.pushes[push];
    InvHolds(r, n);
    SettledNoWrap(w, push);
    ReachStarts(p, u);
    ChunkBytes(p, u);
    if Twice(w, push, u) {
      var c, c' :| c != c' && ConfirmedBy(w, push, c, u) && ConfirmedBy(w, push, c', u);
      DeliversOnce(r, n, push, c, c', u);
    }
    if Shared(p, u) {
      var i, j :| 0 <= i < j < |Split(p)| && InReach(Split(p)[i], u) && InReach(Split(p)[j], u);
      var c := ChunkDelivered(w, push, i, u);
      var c' := ChunkDelivered(w, push, j, u);
      SplitDiffers(p, i, j);
      assert c != c';
    }
  }

  lemma SplitDiffers(r: Request, i: nat, j: nat)
    requires NoWrap(r) && i < j < |Split(r)|
    ensures Split(r)[i] != Split(r)[j]
  {
    SplitShape(r);
    assert Split(r)[i] == ChunkAt(r, i) && Split(r)[j] == ChunkAt(r, j);
  }

  // ---------- bitmaps that stay fixed during the push ----------

  /** The published bitmaps are rel, and a cached key, if there is one, shows them. */
  ghost predicate Current(c: C.Cache, rel: C.Releases) {
    c.releases == rel && (c.tmp.Some? ==> c.tmp.value == C.Intersection(rel))
  }

  /** Nothing is published from state m to state n, and at m the cache is absent or right. It
      is so whenever no update is under way or abandoned at m. */
  ghost predicate FixedBetween(r: Run, m: nat, n: nat)
    requires IsRun(r) && m <= n <= |r.events|
  {
    && Current(r.states[m].cache, r.states[m].cache.releases)
    && forall i :: m <= i < n ==> !(r.events[i].Cache? && r.events[i].c.Rename?)
  }

  lemma QuietIsCurrent(r: Run, m: nat)
    requires IsRun(r) && m <= |r.events| && !r.states[m].cache.publishing && !r.states[m].cache.abandoned
    ensures Current(r.states[m].cache, r.states[m].cache.releases)
  {
    hide C.Intersection, T.Inv, HistoryInv, HandlerInv, AckInv, CallInv, Next, Starts;
    InvHolds(r, m);
    if r.states[m].cache.tmp.Some? { C.QuietShowsCurrent(r.states[m].cache); }
  }

  /** All handlers of the push have read the intersection of rel. */
  ghost predicate Sees(w: World, push: nat, rel: C.Releases) {
    forall c :: HandlerOf(w, push, c) ==> C.Intersection(w.handlers[c].view) == C.Intersection(rel)
  }

  lemma CurrentStep(w: World, e: Event, push: nat, rel: C.Releases)
    requires Inv(w) && Enabled(w, e) && !(e.Cache? && e.c.Rename?)
    requires Current(w.cache, rel) && Sees(w, push, rel)
    ensures Current(Step(w, e).cache, rel) && Sees(Step(w, e), push, rel)
  {
    hide P.Step, P.Enabled, T.Inv, C.Inv, C.Intersection, Pushed, S.Step, S.Begin, AckInv, CallInv, HistoryInv, Serves;
    var w' := Step(w, e);
    if e.Daemon? { DaemonTrace(w.daemon, e.d); }
    forall c | HandlerOf(w', push, c) ensures C.Intersection(w'.handlers[c].view) == C.Intersection(rel) {
      assert (e.Serve? && e.call == c) || HandlerOf(w, push, c);
    }
  }

  /** If nothing is published from before the push's first handler on, and the cache was
      absent or right then, all its handlers read the intersection of what was published. */
  lemma {:induction false} HandlersSee(r: Run, m: nat, n: nat, push: nat)
    requires IsRun(r) && m <= n <= |r.events| && FixedBetween(r, m, n)
    requires forall c :: !HandlerOf(r.states[m], push, c)
    ensures Sees(r.states[n], push, r.states[m].cache.releases)
    ensures Current(r.states[n].cache, r.states[m].cache.releases)
    decreases n
  {
    hide Inv, Step, Enabled, HandlerOf;
    if m < n {
      assert FixedBetween(r, m, n - 1);
      HandlersSee(r, m, n - 1, push);
      InvHolds(r, n - 1);
      assert Next(r.states[n - 1], r.events[n - 1], r.states[n - 1 + 1]);
      CurrentStep(r.states[n - 1], r.events[n - 1], push, r.states[m].cache.releases);
    }
  }

  lemma SeesAgree(w: World, push: nat, rel: C.Releases)
    requires Inv(w) && Sees(w, push, rel) && push in w.daemon.pushes
    ensures AgreedOn(w, push, rel)
  {
    hide InAll, C.Intersection, HasUid, ReadAs, Targets, Inv;
    forall u: nat ensures Agreed(w, push, u, Targets(w.daemon.pushes[push], rel, u)) {
      forall c | HandlerOf(w, push, c)
        ensures ReadAs(w.handlers[c].view, w.daemon.history[c], u, Targets(w.daemon.pushes[push], rel, u))
      {
        SeesTarget(w, push, c, rel, u);
      }
    }
  }

  lemma SeesTarget(w: World, push: nat, c: nat, rel: C.Releases, u: nat)
    requires HandlerOf(w, push, c) && push in w.daemon.pushes && Inv(w) && Sees(w, push, rel)
    ensures ReadAs(w.handlers[c].view, w.daemon.history[c], u, Targets(w.daemon.pushes[push], rel, u))
  {
    hide InAll, C.Intersection, HasUid, InReach, Shift, Shared, Inv, Serves, Split, NoWrap;
    var i := HandlerChunk(w, push, c);
    var p := w.daemon.pushes[push];
    ChunkBytes(p, u);
    ReachStarts(p, u);
    if InReach(p, u) {
      IntersectionBits(w.handlers[c].view, u - Shift(p));
      IntersectionBits(rel, u - Shift(p));
    }
  }

  /** A published bitmap that is the complete encoding of a user table, with bits for every
      uid up to `last`. */
  ghost predicate EncodesTable(bm: Bitmap, table: set<nat>, fetched: seq<seq<nat>>, width: nat, last: nat)
    requires width > 0
  {
    U.Encodes(bm, fetched, width) && U.Reads(fetched, table, width) && last < |fetched| * width
  }

  lemma TableBit(bm: Bitmap, table: set<nat>, fetched: seq<seq<nat>>, width: nat, last: nat, u: nat)
    requires width > 0 && EncodesTable(bm, table, fetched, width, last) && u <= last
    ensures HasUid(bm, u) <==> u in table
  {
    U.EncodingIsTable(bm, fetched, table, width, u);
  }

  datatype Tables = Tables(t0: set<nat>, t1: set<nat>, t2: set<nat>)

  datatype Fetches = Fetches(f0: seq<seq<nat>>, f1: seq<seq<nat>>, f2: seq<seq<nat>>)

  /** The three bitmaps are what the update program makes of three tables. */
  ghost predicate EncodeTables(rel: C.Releases, t: Tables, f: Fetches, width: nat, last: nat)
    requires width > 0
  {
    && EncodesTable(rel.r0, t.t0, f.f0, width, last)
    && EncodesTable(rel.r1, t.t1, f.f1, width, last)
    && EncodesTable(rel.r2, t.t2, f.f2, width, last)
  }

  predicate InTables(t: Tables, u: nat) { u in t.t0 && u in t.t1 && u in t.t2 }

  /** From the tables to the recipients: if the bitmaps published before the push's first
      handler encode three tables and stay published, a settled push has reached exactly the
      uids in its reach whose bits stand for users that are in all three tables; for a start
      that is a multiple of 8, exactly those users. */
  lemma PushReachesTables(r: Run, m: nat, n: nat, push: nat, u: nat, t: Tables, f: Fetches, width: nat)
    requires IsRun(r) && m <= n <= |r.events| && FixedBetween(r, m, n) && width > 0
    requires forall c :: !HandlerOf(r.states[m], push, c)
    requires T.Settled(r.states[n].daemon, push)
    requires EncodeTables(r.states[m].cache.releases, t, f, width, LastBit(r.states[n].daemon.pushes[push].end))
    ensures var p := r.states[n].daemon.pushes[push];
            Receives(r.states[n], push, u) <==> InReach(p, u) && InTables(t, u - Shift(p))
  {
    hide T.Settled, EncodesTable, HasUid, Receives, HandlerOf, FixedBetween, Next, Sees, Agreed, Current, Inv;
    SettledKnown(r.states[n].daemon, push);
    var rel, p := r.states[m].cache.releases, r.states[n].daemon.pushes[push];
    var last := LastBit(p.end);
    HandlersSee(r, m, n, push);
    InvHolds(r, n);
    SeesAgree(r.states[n], push, rel);
    assert Agreed(r.states[n], push, u, Targets(p, rel, u));
    DeliversExactly(r, n, push, u, Targets(p, rel, u));
    if InReach(p, u) {
      var b := u - Shift(p);
      TableBit(rel.r0, t.t0, f.f0, width, last, b);
      TableBit(rel.r1, t.t1, f.f1, width, last, b);
      TableBit(rel.r2, t.t2, f.f2, width, last, b);
    } else {
      DeliversExactly(r, n, push, u, false);
    }
  }
}
