/** How `SelectProducerAndSend` cuts a request into the requests it sends. */
module Chunking {
  import opened Words

  const UID_COUNT_PER_TIME := 4096

  /** A ProduceMsgRequest. `push` names the BeginPush call the request descends from;
      the wire format carries only the other three fields. */
  datatype Request = Request(push: nat, msg: nat, start: nat, end: nat)

  predicate Wire(r: Request) { r.start < U64 && r.end < U64 }

  /** The loop condition, with `start` playing the role of `curUid`. */
  predicate Pending(r: Request) { r.start <= r.end }

  /** End of the chunk at the cursor, in 64-bit arithmetic. */
  function ChunkEnd(cur: nat, end: nat): nat {
    var e := (cur + UID_COUNT_PER_TIME - 1) % U64;
    if e > end then end else e
  }

  function Advance(cur: nat): nat { (cur + UID_COUNT_PER_TIME) % U64 }

  /** The request one iteration sends, and what is left to do after it. */
  function First(r: Request): Request { r.(end := ChunkEnd(r.start, r.end)) }

  function Rest(r: Request): Request { r.(start := Advance(r.start)) }

  function LastStart(r: Request): nat
    requires Pending(r)
  {
    r.start + UID_COUNT_PER_TIME * ((r.end - r.start) / UID_COUNT_PER_TIME)
  }

  /** The cursor stays below 2^64 through the whole loop. */
  predicate NoWrap(r: Request) {
    Wire(r) && (Pending(r) ==> LastStart(r) + UID_COUNT_PER_TIME < U64)
  }

  lemma NoWrapStep(r: Request)
    requires NoWrap(r) && Pending(r)
    ensures Rest(r).start == r.start + UID_COUNT_PER_TIME && NoWrap(Rest(r))
    ensures First(r).end == if r.start + UID_COUNT_PER_TIME - 1 > r.end then r.end else r.start + UID_COUNT_PER_TIME - 1
    ensures !Pending(Rest(r)) <==> (r.end - r.start) / UID_COUNT_PER_TIME == 0
    ensures Pending(Rest(r)) ==>
            (r.end - Rest(r).start) / UID_COUNT_PER_TIME == (r.end - r.start) / UID_COUNT_PER_TIME - 1
  {
    var q := (r.end - r.start) / UID_COUNT_PER_TIME;
    assert r.start + UID_COUNT_PER_TIME <= LastStart(r) + UID_COUNT_PER_TIME < U64;
  }

  /** The requests sent for r, in order. */
  function Split(r: Request): seq<Request>
    requires NoWrap(r)
    decreases r.end + 1 - r.start
  {
    if !Pending(r) then []
    else
      NoWrapStep(r);
      [First(r)] + Split(Rest(r))
  }

  /** The loop itself, with every dispatch recorded. */
  method SplitLoop(r: Request) returns (sent: seq<Request>)
    requires NoWrap(r)
    ensures sent == Split(r)
  {
    sent := [];
    var cur := r.start;
    while cur <= r.end
      invariant NoWrap(r.(start := cur))
      invariant Split(r) == sent + Split(r.(start := cur))
      decreases r.end + 1 - cur
    {
      NoWrapStep(r.(start := cur));
      var req := Request(r.push, r.msg, cur, ChunkEnd(cur, r.end));
      ghost var left := r.(start := cur);
      assert req == First(left) && Rest(left) == r.(start := Advance(cur));
      assert Split(left) == [req] + Split(Rest(left));
      sent := sent + [req];
      cur := Advance(cur);
    }
  }

  /** The i-th request, in closed form. */
  function ChunkAt(r: Request, i: nat): Request {
    var s := r.start + 4096 * i;
    Request(r.push, r.msg, s, if s + 4095 > r.end then r.end else s + 4095)
  }

  /** The number of requests is the rounded-up quotient, and the i-th one starts where the
      previous one stopped: consecutive, disjoint, non-empty, at most 4096 uids each. */
  lemma {:induction false} SplitShape(r: Request)
    requires NoWrap(r)
    ensures |Split(r)| == if Pending(r) then (r.end - r.start) / 4096 + 1 else 0
    ensures forall i :: 0 <= i < |Split(r)| ==> Split(r)[i] == ChunkAt(r, i) && Pending(Split(r)[i])
    decreases r.end + 1 - r.start
  {
    if Pending(r) {
      NoWrapStep(r);
      SplitShape(Rest(r));
      forall i | 0 <= i < |Split(r)| ensures Split(r)[i] == ChunkAt(r, i) && Pending(Split(r)[i]) {
        if i > 0 {
          assert Split(r)[i] == Split(Rest(r))[i - 1] == ChunkAt(Rest(r), i - 1);
        }
      }
    }
  }

  predicate Covers(c: Request, uid: nat) { c.start <= uid <= c.end }

  /** Every uid of the range is in exactly one request, and no other uid is in any. */
  lemma SplitCoversOnce(r: Request, uid: nat)
    requires NoWrap(r)
    ensures Covers(r, uid) <==> exists i :: 0 <= i < |Split(r)| && Covers(Split(r)[i], uid)
    ensures forall i, j :: 0 <= i < j < |Split(r)| && Covers(Split(r)[i], uid) ==> !Covers(Split(r)[j], uid)
  {
    SplitShape(r);
    if Covers(r, uid) {
      var i := (uid - r.start) / UID_COUNT_PER_TIME;
      assert Covers(Split(r)[i], uid);
    }
  }

  lemma {:induction false} CountDistinct(s: seq<Request>, c: Request)
    requires forall i, j :: 0 <= i < j < |s| ==> s[i] != s[j]
    ensures multiset(s)[c] == if c in s then 1 else 0
  {
    if s != [] {
      var front, last := s[..|s| - 1], s[|s| - 1];
      CountDistinct(front, c);
      assert s == front + [last];
      assert last !in front;
    }
  }

  /** Two positions never hold the same request. */
  lemma SplitDistinct(r: Request, c: Request)
    requires NoWrap(r)
    ensures multiset(Split(r))[c] == if c in Split(r) then 1 else 0
    ensures c in Split(r) ==> c.push == r.push
  {
    SplitShape(r);
    CountDistinct(Split(r), c);
  }

  /** A request small enough to be sent as it is. */
  predicate IsChunk(c: Request) {
    c.start <= c.end < c.start + UID_COUNT_PER_TIME && c.start + UID_COUNT_PER_TIME < U64
  }

  /** Splitting a sent request again gives that request alone: a re-send is identical. */
  lemma Resplit(c: Request)
    requires IsChunk(c)
    ensures NoWrap(c) && Split(c) == [c]
  {
    NoWrapStep(c);
    assert First(c) == c;
    assert Split(Rest(c)) == [];
  }

  lemma FirstIsChunk(r: Request)
    requires NoWrap(r) && Pending(r)
    ensures IsChunk(First(r)) && NoWrap(Rest(r))
    ensures Split(r) == [First(r)] + Split(Rest(r))
  {
    NoWrapStep(r);
  }

  // ---------- exactly when the loop ends ----------

  /** curUid after n iterations. */
  function Cursor(r: Request, n: nat): nat {
    if n == 0 then r.start else Advance(Cursor(r, n - 1))
  }

  lemma AdvanceWraps(x: nat)
    ensures (x % U64 + UID_COUNT_PER_TIME) % U64 == (x + UID_COUNT_PER_TIME) % U64
  {
  }

  lemma {:induction false} CursorValue(r: Request, n: nat)
    requires Wire(r)
    ensures Cursor(r, n) == (r.start + UID_COUNT_PER_TIME * n) % U64
  {
    if n > 0 {
      CursorValue(r, n - 1);
      AdvanceWraps(r.start + UID_COUNT_PER_TIME * (n - 1));
    }
  }

  ghost predicate Terminates(r: Request) { exists n: nat :: Cursor(r, n) > r.end }

  /** The loop ends if and only if the cursor never wraps; otherwise it sends the range
      again and again. */
  lemma TerminatesIffNoWrap(r: Request)
    requires Wire(r)
    ensures Terminates(r) <==> NoWrap(r)
    ensures NoWrap(r) <==> Pending(r) ==> r.start + 4096 * ((r.end - r.start) / 4096 + 1) < 0x1_0000_0000_0000_0000
  {
    if !Pending(r) {
      assert Cursor(r, 0) > r.end;
    } else if NoWrap(r) {
      var n := (r.end - r.start) / UID_COUNT_PER_TIME + 1;
      CursorValue(r, n);
      assert Cursor(r, n) > r.end;
    } else {
      forall n: nat ensures Cursor(r, n) <= r.end {
        CursorValue(r, n);
        var c := Cursor(r, n);
        assert c % UID_COUNT_PER_TIME == r.start % UID_COUNT_PER_TIME by {
          SameResidue(r.start + UID_COUNT_PER_TIME * n, r.start, n);
        }
        StepsApart(c, LastStart(r), r.start, (r.end - r.start) / UID_COUNT_PER_TIME);
      }
    }
  }

  /** What the loop sends where the 64-bit sum wraps: exactly there a request whose end lies
      before its start. */
  lemma BackwardsIffWraps(cur: nat, end: nat)
    requires cur <= end < U64
    ensures ChunkEnd(cur, end) < cur <==> cur + 4095 >= 0x1_0000_0000_0000_0000
  {
  }

  lemma SameResidue(x: nat, s: nat, n: nat)
    requires x == s + UID_COUNT_PER_TIME * n
    ensures (x % U64) % UID_COUNT_PER_TIME == s % UID_COUNT_PER_TIME
  {
    var q := x / U64;
    assert x % U64 == s + UID_COUNT_PER_TIME * n - U64 * q;
    assert U64 == UID_COUNT_PER_TIME * (U64 / UID_COUNT_PER_TIME);
    var m := n - (U64 / UID_COUNT_PER_TIME) * q;
    assert x % U64 == s + UID_COUNT_PER_TIME * m;
  }

  lemma StepsApart(c: nat, last: nat, s: nat, q: nat)
    requires last == s + UID_COUNT_PER_TIME * q
    requires c % UID_COUNT_PER_TIME == s % UID_COUNT_PER_TIME
    ensures c <= last || c >= last + UID_COUNT_PER_TIME
  {
    assert last % UID_COUNT_PER_TIME == s % UID_COUNT_PER_TIME;
  }
}
