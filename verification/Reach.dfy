/** Which uids a request and the chunks it is cut into can push to, from the bytes they read. */
module Reach {
  import opened Bits
  import opened Chunking
  import opened Producer

  /** How far the uids of a request are off the bits they are decoded from. */
  function Shift(r: Request): nat { r.start % BITS_PER_BYTE }

  /** The uids a request can push to: those of the whole bytes from the byte of its start
      through the byte of its end, shifted. For an aligned start, start <= u <= LastBit(end). */
  predicate InReach(r: Request, u: nat) { r.start <= u && Pending(r) && u - Shift(r) <= LastBit(r.end) }

  /** The chunk whose uid range contains u, counted from 0. */
  function ChunkNumber(r: Request, u: nat): nat
    requires r.start <= u
  {
    (u - r.start) / UID_COUNT_PER_TIME
  }

  /** u is in reach of two chunks: it is one of the first eight uids of a chunk other than the
      first of a push that does not start on a byte boundary. */
  predicate Shared(r: Request, u: nat) {
    && Shift(r) != 0 && InReach(r, u)
    && 1 <= ChunkNumber(r, u) <= (r.end - r.start) / UID_COUNT_PER_TIME
    && (u - r.start) % UID_COUNT_PER_TIME < BITS_PER_BYTE
  }

  /** u is among the uids that chunk i shares with the next one, or would if there were one. */
  predicate Overhangs(r: Request, i: nat, u: nat) {
    Shift(r) != 0 && r.start <= u && ChunkNumber(r, u) == i + 1 && (u - r.start) % UID_COUNT_PER_TIME < BITS_PER_BYTE
  }

  /** Every chunk has the shift of the push, and reaches its own uids and an overhang. */
  lemma ChunkReach(r: Request, i: nat, u: nat)
    requires Pending(r) && i <= (r.end - r.start) / UID_COUNT_PER_TIME
    ensures Shift(ChunkAt(r, i)) == Shift(r)
    ensures InReach(ChunkAt(r, i), u) <==> InReach(r, u) && (ChunkNumber(r, u) == i || Overhangs(r, i, u))
  {
    var c, s := ChunkAt(r, i), Shift(r);
    assert c.start == r.start + UID_COUNT_PER_TIME * i <= r.end;
    ShiftOfChunk(r, i);
    var b := c.start / BITS_PER_BYTE;
    assert c.start == BITS_PER_BYTE * b + s;
    ByteOfLast(b, s);
    if r.start <= u {
      var k, m := ChunkNumber(r, u), (u - r.start) % UID_COUNT_PER_TIME;
      assert u == r.start + UID_COUNT_PER_TIME * k + m;
      LastBitMonotone(c.end, r.end);
      LastBitMonotone(r.end, c.start + UID_COUNT_PER_TIME - 1);
      ReachCases(c.start, i, k, m, u, r.start);
    }
  }

  lemma Remainder(x: nat, q: nat, s: nat)
    requires x == BITS_PER_BYTE * q + s && s < BITS_PER_BYTE
    ensures x % BITS_PER_BYTE == s && x / BITS_PER_BYTE == q
  {
  }

  lemma ShiftOfChunk(r: Request, i: nat)
    ensures (r.start + UID_COUNT_PER_TIME * i) % BITS_PER_BYTE == Shift(r)
  {
    var b := r.start / BITS_PER_BYTE;
    assert r.start == BITS_PER_BYTE * b + Shift(r);
    Remainder(r.start + UID_COUNT_PER_TIME * i, b + 512 * i, Shift(r));
  }

  /** The last byte of a full chunk: with a shift it is the first byte of the next one. */
  lemma ByteOfLast(b: nat, s: nat)
    requires s < BITS_PER_BYTE
    ensures LastBit(BITS_PER_BYTE * b + s + UID_COUNT_PER_TIME - 1)
            == BITS_PER_BYTE * b + UID_COUNT_PER_TIME + if s == 0 then -1 else 7
  {
    assert (BITS_PER_BYTE * b + s + UID_COUNT_PER_TIME - 1) / BITS_PER_BYTE == b + 511 + (if s == 0 then 0 else 1);
  }

  lemma LastBitMonotone(x: nat, y: nat)
    ensures x <= y ==> LastBit(x) <= LastBit(y)
    ensures y < x ==> LastBit(y) <= LastBit(x)
  {
  }

  lemma ReachCases(cs: nat, i: nat, k: nat, m: nat, u: nat, start: nat)
    requires u == start + UID_COUNT_PER_TIME * k + m && m < UID_COUNT_PER_TIME && cs == start + UID_COUNT_PER_TIME * i
    ensures k < i <==> u < cs
    ensures k == i <==> cs <= u < cs + UID_COUNT_PER_TIME
    ensures k == i + 1 && m < BITS_PER_BYTE <==> cs + UID_COUNT_PER_TIME <= u < cs + UID_COUNT_PER_TIME + BITS_PER_BYTE
  {
  }

  /** The reach of a push is the union of the reaches of its chunks, and only shared uids are
      in reach of two. */
  lemma ChunkBytes(r: Request, u: nat)
    requires NoWrap(r)
    ensures forall i :: 0 <= i < |Split(r)| ==> Shift(Split(r)[i]) == Shift(r)
    ensures InReach(r, u) <==> exists i :: 0 <= i < |Split(r)| && InReach(Split(r)[i], u)
    ensures (exists i, j :: 0 <= i < j < |Split(r)| && InReach(Split(r)[i], u) && InReach(Split(r)[j], u)) <==>
            Shared(r, u)
  {
    hide Shift;
    SplitShape(r);
    var s := Split(r);
    forall i | 0 <= i < |s|
      ensures Shift(s[i]) == Shift(r)
      ensures InReach(s[i], u) <==> InReach(r, u) && (ChunkNumber(r, u) == i || Overhangs(r, i, u))
    {
      assert s[i] == ChunkAt(r, i);
      ChunkReach(r, i, u);
    }
    if InReach(r, u) {
      var k := LastReached(r, u);
      assert InReach(s[k], u);
      if Shared(r, u) { assert InReach(s[k - 1], u); }
    }
  }

  /** The last chunk that reaches u. */
  lemma LastReached(r: Request, u: nat) returns (k: nat)
    requires InReach(r, u)
    ensures k <= (r.end - r.start) / UID_COUNT_PER_TIME
    ensures ChunkNumber(r, u) == k || Overhangs(r, k, u)
    ensures r.start <= u && (Shared(r, u) ==> ChunkNumber(r, u) == k)
  {
    var q := (r.end - r.start) / UID_COUNT_PER_TIME;
    k := ChunkNumber(r, u);
    if k > q {
      ChunkReach(r, q, u);
      var c := ChunkAt(r, q);
      assert c.end == r.end;
      assert Shift(c) == Shift(r);
      k := q;
    }
  }

  /** No uid is pushed to by two chunks of the push, whatever key covers its range. */
  ghost predicate ChunksDisjoint(r: Request)
    requires NoWrap(r)
  {
    forall v: Bitmap, i, j, u: nat ::
      0 <= i < j < |Split(r)| && r.end / BITS_PER_BYTE < |v| && PushedBy(v, Split(r)[i], u) ==>
         !PushedBy(v, Split(r)[j], u)
  }

  predicate PushedBy(v: Bitmap, c: Request, u: nat) { u in Pushed(v, c.start, c.end) }

  lemma PushedInReach(v: Bitmap, c: Request, u: nat)
    requires Pending(c) && c.end / BITS_PER_BYTE < |v|
    ensures PushedBy(v, c, u) <==> InReach(c, u) && HasUid(v, u - Shift(c))
  {
    hide HasUid, Pushed;
    PushedExactly(v, c.start, c.end, u);
  }

  /** A push of more than one chunk keeps its chunks apart if and only if it starts on a byte
      boundary: otherwise a uid is pushed to by two chunks without any re-send. */
  lemma ChunksDisjointIffAligned(r: Request)
    requires NoWrap(r) && |Split(r)| > 1
    ensures ChunksDisjoint(r) <==> r.start % BITS_PER_BYTE == 0
  {
    hide PushedBy, InReach, Split, HasUid, NoWrap;
    SplitShape(r);
    var s := Split(r);
    if r.start % BITS_PER_BYTE == 0 {
      forall v: Bitmap, i, j, u: nat | 0 <= i < j < |s| && r.end / BITS_PER_BYTE < |v| && PushedBy(v, s[i], u)
        ensures !PushedBy(v, s[j], u)
      {
        assert s[i] == ChunkAt(r, i) && s[j] == ChunkAt(r, j);
        PushedInReach(v, s[i], u);
        PushedInReach(v, s[j], u);
        ChunkBytes(r, u);
      }
    } else {
      OverlapWitness(r);
    }
  }

  lemma OverlapWitness(r: Request)
    requires NoWrap(r) && |Split(r)| > 1 && r.start % BITS_PER_BYTE != 0
    ensures !ChunksDisjoint(r)
  {
    hide InReach, Split, HasUid, NoWrap, Pushed;
    SplitShape(r);
    var s, u := Split(r), r.start + UID_COUNT_PER_TIME;
    assert s[0] == ChunkAt(r, 0) && s[1] == ChunkAt(r, 1);
    ChunkReach(r, 0, u);
    ChunkReach(r, 1, u);
    FirstShared(r);
    var v := Single(r.end / BITS_PER_BYTE + 1, u - Shift(r));
    SingleHas(r.end / BITS_PER_BYTE + 1, u - Shift(r), u - Shift(r));
    PushedInReach(v, s[0], u);
    PushedInReach(v, s[1], u);
    assert PushedBy(v, s[0], u) && PushedBy(v, s[1], u);
  }

  lemma FirstShared(r: Request)
    requires Pending(r) && (r.end - r.start) / UID_COUNT_PER_TIME >= 1 && Shift(r) != 0
    ensures var u := r.start + UID_COUNT_PER_TIME; InReach(r, u) && ChunkNumber(r, u) == 1 && Overhangs(r, 0, u)
    ensures (r.start + UID_COUNT_PER_TIME - Shift(r)) / BITS_PER_BYTE <= r.end / BITS_PER_BYTE
  {
  }
}
