/** The sending part of one ProduceMsg call: a loop hands every uid to the broker client,
    callbacks arrive on other threads, failed sends are retried on threads of their own, and
    a countdown replies when the last uid is confirmed. */
module SendSession {
  import opened Words
  import opened OrderedKeys

  datatype ErrCode = SUCCESS | ERR

  /** The fields of the call object: the countdown, the error code in `reply_` (ERR until it
      is overwritten), `status_ == FINISH`, and how often Finish has been called. */
  datatype Countdown = Countdown(waitForSendCount: nat, err: ErrCode, finished: bool, finishes: nat)

  /** When the sending of `count` messages starts; without any the reply goes out at once. */
  function Started(count: nat): Countdown {
    if count == 0 then Countdown(0, SUCCESS, true, 1) else Countdown(count % U32, ERR, false, 0)
  }

  function Notified(c: Countdown): Countdown {
    var left := (c.waitForSendCount + U32 - 1) % U32;
    if left == 0 then Countdown(0, SUCCESS, true, c.finishes + 1) else c.(waitForSendCount := left)
  }

  /** Queued: the loop has not got it accepted. Outstanding: accepted by the client, callback
      to come. Retrying: refused through onException, in its RetrySending thread. */
  datatype Message = Queued | Outstanding | Retrying | Confirmed

  datatype Session = Session(uids: seq<nat>, messages: seq<Message>, next: nat, count: Countdown)

  function Begin(uids: seq<nat>): Session {
    Session(uids, seq(|uids|, _ => Queued), 0, Started(|uids|))
  }

  /** Send: one call of `gMQProducer.send`; not accepted means it threw, and the worker tries
      again. Every accepted send ends in exactly one Succeed or Fail. */
  datatype Event = Send(i: nat, accepted: bool) | Succeed(i: nat) | Fail(i: nat)

  predicate Enabled(s: Session, e: Event) {
    && e.i < |s.messages|
    && match e
       case Send(i, _) => s.messages[i] == Retrying || (s.messages[i] == Queued && i == s.next)
       case Succeed(i) => s.messages[i] == Outstanding
       case Fail(i) => s.messages[i] == Outstanding
  }

  function Step(s: Session, e: Event): Session
    requires Enabled(s, e)
  {
    match e
    case Send(i, accepted) =>
      if !accepted then s
      else s.(messages := s.messages[i := Outstanding], next := if s.messages[i] == Queued then s.next + 1 else s.next)
    case Succeed(i) => s.(messages := s.messages[i := Confirmed], count := Notified(s.count))
    case Fail(i) => s.(messages := s.messages[i := Retrying])
  }

  /** The uids the broker has not confirmed yet, by position. */
  function Unconfirmed(messages: seq<Message>): set<nat> {
    set i: nat | i < |messages| && messages[i] != Confirmed
  }

  ghost predicate Inv(s: Session) {
    && |s.messages| == |s.uids| < U32 && s.next <= |s.uids|
    && (forall i :: 0 <= i < |s.uids| ==> (s.messages[i] == Queued <==> s.next <= i))
    && s.count.waitForSendCount == |Unconfirmed(s.messages)|
    && (s.count.finished <==> Unconfirmed(s.messages) == {})
    && (s.count.finished ==> s.count.err == SUCCESS)
    && s.count.finishes == if s.count.finished then 1 else 0
  }

  lemma {:induction false} AllUnconfirmed(messages: seq<Message>)
    requires forall i :: 0 <= i < |messages| ==> messages[i] != Confirmed
    ensures |Unconfirmed(messages)| == |messages|
  {
    if messages == [] {
      assert Unconfirmed(messages) == {};
    } else {
      var n := |messages| - 1;
      AllUnconfirmed(messages[..n]);
      assert Unconfirmed(messages) == Unconfirmed(messages[..n]) + {n};
    }
  }

  lemma BeginInv(uids: seq<nat>)
    requires |uids| < U32
    ensures Inv(Begin(uids))
  {
    AllUnconfirmed(Begin(uids).messages);
  }

  lemma InvStep(s: Session, e: Event)
    requires Inv(s) && Enabled(s, e)
    ensures Inv(Step(s, e))
  {
    var s' := Step(s, e);
    match e
    case Succeed(i) =>
      assert i in Unconfirmed(s.messages);
      assert Unconfirmed(s'.messages) == Unconfirmed(s.messages) - {i};
      UnconfirmedBounded(s.messages);
    case Send(i, accepted) => assert Unconfirmed(s'.messages) == Unconfirmed(s.messages);
    case Fail(i) => assert Unconfirmed(s'.messages) == Unconfirmed(s.messages);
  }

  datatype Run = Run(states: seq<Session>, events: seq<Event>)

  ghost predicate Next(s: Session, e: Event, s': Session) { Enabled(s, e) && s' == Step(s, e) }

  ghost predicate IsRun(r: Run) {
    && |r.states| == |r.events| + 1
    && |r.states[0].uids| < U32 && r.states[0] == Begin(r.states[0].uids)
    && forall i :: 0 <= i < |r.events| ==> Next(r.states[i], r.events[i], r.states[i + 1])
  }

  ghost predicate AllConfirmed(s: Session) {
    forall i :: 0 <= i < |s.messages| ==> s.messages[i] == Confirmed
  }

  /** Reply exactly once: under any interleaving the countdown equals the uids still to be
      confirmed and never underflows, Finish has been called at most once, and it has been
      called, with SUCCESS, exactly when every uid is confirmed. */
  lemma {:induction false} RepliesOnce(r: Run, n: nat)
    requires IsRun(r) && n <= |r.events|
    ensures var s := r.states[n];
            && s.uids == r.states[0].uids && |s.messages| == |s.uids|
            && s.count.waitForSendCount == |Unconfirmed(s.messages)| <= |s.uids|
            && s.count.finishes == (if AllConfirmed(s) then 1 else 0)
            && (s.count.finished <==> AllConfirmed(s)) && (s.count.finished ==> s.count.err == SUCCESS)
    ensures Inv(r.states[n])
  {
    if n == 0 {
      BeginInv(r.states[0].uids);
    } else {
      RepliesOnce(r, n - 1);
      assert Next(r.states[n - 1], r.events[n - 1], r.states[n - 1 + 1]);
      InvStep(r.states[n - 1], r.events[n - 1]);
    }
    UnconfirmedBounded(r.states[n].messages);
    assert forall i :: 0 <= i < |r.states[n].messages| ==>
       (i in Unconfirmed(r.states[n].messages) <==> r.states[n].messages[i] != Confirmed);
  }

  lemma {:induction false} UnconfirmedBounded(messages: seq<Message>)
    ensures |Unconfirmed(messages)| <= |messages|
  {
    if messages == [] {
      assert Unconfirmed(messages) == {};
    } else {
      var n := |messages| - 1;
      UnconfirmedBounded(messages[..n]);
      assert Unconfirmed(messages) <= Unconfirmed(messages[..n]) + {n};
      SubsetSize(Unconfirmed(messages), Unconfirmed(messages[..n]) + {n});
    }
  }

  /** The session goes on exactly until the reply: before it some send or callback is
      possible, after it none is. */
  lemma ActiveUntilReply(s: Session)
    requires Inv(s)
    ensures s.count.finished <==> forall e :: !Enabled(s, e)
  {
    if !s.count.finished {
      if forall i :: i !in Unconfirmed(s.messages) { assert false; }
      var i :| i in Unconfirmed(s.messages);
      if s.messages[i] == Queued {
        assert Enabled(s, Send(s.next, true));
      } else if s.messages[i] == Retrying {
        assert Enabled(s, Send(i, true));
      } else {
        assert Enabled(s, Succeed(i));
      }
    } else {
      assert forall i: nat :: i < |s.messages| ==> (s.messages[i] == Confirmed <==> i !in Unconfirmed(s.messages));
    }
  }

  // ---------- sends and callbacks ----------

  /** How many of the first n events are this one. */
  function Happened(r: Run, n: nat, e: Event): nat
    requires n <= |r.events|
  {
    if n == 0 then 0 else Happened(r, n - 1, e) + if r.events[n - 1] == e then 1 else 0
  }

  /** For every uid, each accepted send has had one callback, but for one that is still to
      come while the message is outstanding. A uid is confirmed exactly when it had its one
      success; after every other callback it has to be sent again first. It is queued exactly
      as long as no send of it was accepted. */
  lemma {:induction false} CallbacksMatchSends(r: Run, n: nat, i: nat)
    requires IsRun(r) && n <= |r.events| && i < |r.states[0].uids|
    ensures var m, sends := r.states[n].messages, Happened(r, n, Send(i, true));
            && |m| == |r.states[0].uids|
            && sends == Happened(r, n, Succeed(i)) + Happened(r, n, Fail(i)) + (if m[i] == Outstanding then 1 else 0)
            && Happened(r, n, Succeed(i)) == (if m[i] == Confirmed then 1 else 0)
            && (m[i] == Queued <==> sends == 0)
  {
    hide Inv;
    if n > 0 {
      CallbacksMatchSends(r, n - 1, i);
      assert Next(r.states[n - 1], r.events[n - 1], r.states[n - 1 + 1]);
    }
  }
}
