/** A producer handling one ProduceMsg request: build the cached intersection if it is
    missing, read the requested byte range, decode it to uids, count confirmations down. */
module Producer {
  import opened Words
  import opened Bits
  import opened Redis
  import opened SendSession

  // ---------- decoding ----------

  /** The uids of the first n bits of a byte string whose first bit stands for startUid. */
  function DecodeBits(info: Bitmap, startUid: nat, n: nat): seq<nat>
    requires n <= BITS_PER_BYTE * |info|
  {
    if n == 0 then []
    else DecodeBits(info, startUid, n - 1) + if HasUid(info, n - 1) then [startUid + n - 1] else []
  }

  function Decode(info: Bitmap, startUid: nat): seq<nat> { DecodeBits(info, startUid, BITS_PER_BYTE * |info|) }

  /** The nested loop over bytes and bits that fills the vector of uids to send. */
  method DecodeUids(info: Bitmap, startUid: nat) returns (uids: seq<nat>)
    ensures uids == Decode(info, startUid)
  {
    hide DecodeBits, HasUid;
    DecodeNothing(info, startUid);
    uids := [];
    for i := 0 to |info|
      invariant uids == DecodeBits(info, startUid, BITS_PER_BYTE * i)
    {
      for j := 0 to BITS_PER_BYTE
        invariant uids == DecodeBits(info, startUid, BITS_PER_BYTE * i + j)
      {
        DecodeStep(info, startUid, i, j);
        if info[i] & ((1 as bv8) << (7 - j)) != 0 {
          uids := uids + [startUid + BITS_PER_BYTE * i + j];
        }
      }
    }
  }

  lemma BitPosition(i: nat, j: nat)
    requires j < BITS_PER_BYTE
    ensures (BITS_PER_BYTE * i + j) / BITS_PER_BYTE == i && (BITS_PER_BYTE * i + j) % BITS_PER_BYTE == j
  {
  }

  lemma DecodeNothing(info: Bitmap, startUid: nat)
    ensures DecodeBits(info, startUid, 0) == []
  {
  }

  lemma DecodeStep(info: Bitmap, startUid: nat, i: nat, j: nat)
    requires i < |info| && j < BITS_PER_BYTE
    ensures var n := BITS_PER_BYTE * i + j;
            DecodeBits(info, startUid, n + 1)
            == DecodeBits(info, startUid, n) + if info[i] & ((1 as bv8) << (7 - j)) != 0 then [startUid + n] else []
  {
    BitPosition(i, j);
    assert HasUid(info, BITS_PER_BYTE * i + j) <==> Bit(info[i], j);
  }

  ghost predicate StrictlyIncreasing(uids: seq<nat>) { forall i, j :: 0 <= i < j < |uids| ==> uids[i] < uids[j] }

  lemma {:induction false} DecodedBits(info: Bitmap, startUid: nat, n: nat)
    requires n <= BITS_PER_BYTE * |info|
    ensures StrictlyIncreasing(DecodeBits(info, startUid, n))
    ensures |DecodeBits(info, startUid, n)| <= n
    ensures forall u :: u in DecodeBits(info, startUid, n) <==>
            startUid <= u < startUid + n && HasUid(info, u - startUid)
  {
    hide HasUid;
    if n > 0 {
      DecodedBits(info, startUid, n - 1);
      var before := DecodeBits(info, startUid, n - 1);
      forall i | 0 <= i < |before| ensures before[i] < startUid + n - 1 { assert before[i] in before; }
    }
  }

  /** What a producer pushes to when the key holds v: the uids of GETRANGE start/8 end/8. */
  function Pushed(v: Bitmap, startUid: nat, endUid: nat): seq<nat> {
    Decode(GetRange(v, startUid / BITS_PER_BYTE, endUid / BITS_PER_BYTE), startUid)
  }

  function LastBit(endUid: nat): nat { BITS_PER_BYTE * (endUid / BITS_PER_BYTE) + 7 }

  /** GETRANGE hands over the bits from the byte of startUid through the byte of endUid. */
  lemma RangeBits(v: Bitmap, startUid: nat, endUid: nat, o: nat)
    requires startUid <= endUid && endUid / BITS_PER_BYTE < |v|
    ensures var info := GetRange(v, startUid / BITS_PER_BYTE, endUid / BITS_PER_BYTE);
            && |info| == endUid / BITS_PER_BYTE - startUid / BITS_PER_BYTE + 1
            && (HasUid(info, o) <==>
                  o < BITS_PER_BYTE * |info| && HasUid(v, BITS_PER_BYTE * (startUid / BITS_PER_BYTE) + o))
  {
    hide Bit;
    var lo := startUid / BITS_PER_BYTE;
    var q, m := o / BITS_PER_BYTE, o % BITS_PER_BYTE;
    assert o == BITS_PER_BYTE * q + m;
    BitPosition(lo + q, m);
    assert BITS_PER_BYTE * lo + o == BITS_PER_BYTE * (lo + q) + m;
  }

  /** The decoder for any start and end inside the key: the uids are strictly increasing, and
      u is pushed exactly when the bit start % 8 places before it is set in the key, within
      the whole bytes from start / 8 through end / 8. */
  lemma PushedExactly(v: Bitmap, startUid: nat, endUid: nat, u: nat)
    requires startUid <= endUid && endUid / BITS_PER_BYTE < |v|
    ensures StrictlyIncreasing(Pushed(v, startUid, endUid))
    ensures var shift := startUid % BITS_PER_BYTE;
            u in Pushed(v, startUid, endUid) <==>
              startUid <= u && u - shift <= LastBit(endUid) && HasUid(v, u - shift)
  {
    hide HasUid, GetRange, DecodeBits;
    var info := GetRange(v, startUid / BITS_PER_BYTE, endUid / BITS_PER_BYTE);
    RangeBits(v, startUid, endUid, 0);
    DecodedBits(info, startUid, BITS_PER_BYTE * |info|);
    if u >= startUid { RangeBits(v, startUid, endUid, u - startUid); }
  }

  /** The decoder inverts the encoder on this request: it pushes to exactly the uids of the
      key from startUid through the end of the last byte. */
  ghost predicate Inverts(v: Bitmap, startUid: nat, endUid: nat) {
    forall u: nat :: u in Pushed(v, startUid, endUid) <==> startUid <= u <= LastBit(endUid) && HasUid(v, u)
  }

  lemma AlignedInverts(v: Bitmap, startUid: nat, endUid: nat)
    requires startUid <= endUid && endUid / BITS_PER_BYTE < |v| && startUid % BITS_PER_BYTE == 0
    ensures Inverts(v, startUid, endUid) && StrictlyIncreasing(Pushed(v, startUid, endUid))
  {
    hide HasUid, Pushed;
    forall u: nat ensures u in Pushed(v, startUid, endUid) <==> startUid <= u <= LastBit(endUid) && HasUid(v, u) {
      PushedExactly(v, startUid, endUid, u);
    }
    PushedExactly(v, startUid, endUid, 0);
  }

  /** Only the bit of one uid set. */
  function Single(n: nat, u: nat): Bitmap
    requires u / BITS_PER_BYTE < n
  {
    WithUid(seq(n, _ => 0), u)
  }

  lemma SingleHas(n: nat, u: nat, x: nat)
    requires u / BITS_PER_BYTE < n
    ensures HasUid(Single(n, u), x) <==> x == u
  {
    hide HasUid;
    ZerosEmpty(seq(n, _ => 0), x);
    WithUidAdds(seq(n, _ => 0), u, x);
  }

  /** The decoder inverts the encoder for every key that covers the range if and only if
      startUid is a multiple of 8. */
  lemma InvertsIffAligned(startUid: nat, endUid: nat)
    requires startUid <= endUid
    ensures (forall v: Bitmap :: endUid / BITS_PER_BYTE < |v| ==> Inverts(v, startUid, endUid)) <==>
            startUid % BITS_PER_BYTE == 0
  {
    hide HasUid, Pushed;
    if startUid % BITS_PER_BYTE == 0 {
      forall v: Bitmap | endUid / BITS_PER_BYTE < |v| ensures Inverts(v, startUid, endUid) {
        AlignedInverts(v, startUid, endUid);
      }
    } else {
      ShiftedStart(startUid, endUid);
    }
  }

  /** The request taken literally: the uids of the key from startUid through endUid. */
  ghost predicate ExactRange(v: Bitmap, startUid: nat, endUid: nat) {
    forall u: nat :: u in Pushed(v, startUid, endUid) <==> startUid <= u <= endUid && HasUid(v, u)
  }

  /** A request is met literally, for every key that covers it, if and only if it starts and
      ends on byte boundaries. */
  lemma ExactIffWholeBytes(startUid: nat, endUid: nat)
    requires startUid <= endUid
    ensures (forall v: Bitmap :: endUid / BITS_PER_BYTE < |v| ==> ExactRange(v, startUid, endUid))
            <==> startUid % BITS_PER_BYTE == 0 && endUid % BITS_PER_BYTE == 7
  {
    hide HasUid, Pushed;
    if !(startUid % BITS_PER_BYTE == 0 && endUid % BITS_PER_BYTE == 7) {
      PastTheEnd(startUid, endUid);
    } else {
      assert LastBit(endUid) == endUid;
      forall v: Bitmap | endUid / BITS_PER_BYTE < |v| ensures ExactRange(v, startUid, endUid) {
        AlignedInverts(v, startUid, endUid);
        forall u: nat ensures u in Pushed(v, startUid, endUid) <==> startUid <= u <= endUid && HasUid(v, u) {
          assert u in Pushed(v, startUid, endUid) <==> startUid <= u <= LastBit(endUid) && HasUid(v, u);
        }
      }
    }
  }

  /** An unaligned start: a uid that is not in the key at all is pushed to. */
  lemma ShiftedStart(startUid: nat, endUid: nat)
    requires startUid <= endUid && startUid % BITS_PER_BYTE != 0
    ensures var v := Single(endUid / BITS_PER_BYTE + 1, startUid - startUid % BITS_PER_BYTE);
            && startUid in Pushed(v, startUid, endUid) && !HasUid(v, startUid)
            && !Inverts(v, startUid, endUid) && !ExactRange(v, startUid, endUid)
  {
    hide HasUid, Pushed;
    var first, n := startUid - startUid % BITS_PER_BYTE, endUid / BITS_PER_BYTE + 1;
    PushedExactly(Single(n, first), startUid, endUid, startUid);
    SingleHas(n, first, startUid);
    SingleHas(n, first, first);
  }

  /** Unless the request starts and ends on byte boundaries, the last bit read stands for a
      uid beyond the end, and the uid it is decoded to is pushed to if that bit is set. */
  lemma PastTheEnd(startUid: nat, endUid: nat)
    requires startUid <= endUid && !(startUid % BITS_PER_BYTE == 0 && endUid % BITS_PER_BYTE == 7)
    ensures var v, u := Single(endUid / BITS_PER_BYTE + 1, LastBit(endUid)), LastBit(endUid) + startUid % BITS_PER_BYTE;
            endUid < u && u in Pushed(v, startUid, endUid) && !ExactRange(v, startUid, endUid)
  {
    hide HasUid, Pushed;
    var last, n := LastBit(endUid), endUid / BITS_PER_BYTE + 1;
    PushedExactly(Single(n, last), startUid, endUid, last + startUid % BITS_PER_BYTE);
    SingleHas(n, last, last);
  }

  // ---------- the call object ----------

  /** The database with the cached key: as it is if the key is there, otherwise after BITOP
      AND, which leaves no key if the intersection is empty. */
  function WithCache(db: Db): Db {
    if TmpUserInfo in db then db else BitOpAnd(db, TmpUserInfo, Release(0), Release(1), Release(2))
  }

  /** The cached key then holds what it held, or exactly the users of all three bitmaps, and
      nothing else in the database is different. */
  lemma WithCacheIntersects(db: Db, u: nat)
    ensures forall k :: k != TmpUserInfo ==> (k in WithCache(db) <==> k in db)
    ensures forall k :: k != TmpUserInfo && k in db ==> WithCache(db)[k] == db[k]
    ensures TmpUserInfo in db ==> WithCache(db) == db
    ensures TmpUserInfo !in db ==>
              (HasUid(Value(WithCache(db), TmpUserInfo), u) <==>
                forall i :: 0 <= i < 3 ==> HasUid(Value(db, Release(i)), u))
    ensures TmpUserInfo in WithCache(db) <==>
              TmpUserInfo in db || exists i :: 0 <= i < 3 && Value(db, Release(i)) != []
  {
    hide HasUid, And3;
    AndIntersects(Value(db, Release(0)), Value(db, Release(1)), Value(db, Release(2)), u);
    EmptyHasNone(u);
    assert And3(Value(db, Release(0)), Value(db, Release(1)), Value(db, Release(2))) == [] <==>
        Value(db, Release(0)) == [] && Value(db, Release(1)) == [] && Value(db, Release(2)) == [];
  }

  lemma EmptyHasNone(u: nat)
    ensures !HasUid([], u)
  {
  }

  class ProduceMsgCallData {
    var waitForSendCount: nat
    var err: ErrCode     // in reply_
    var finished: bool   // status_ == FINISH
    var finishes: nat    // how often responder_.Finish has been called

    ghost function Count(): Countdown
      reads this
    {
      Countdown(waitForSendCount, err, finished, finishes)
    }

    /** The object as ProduceMsg finds it: Proceed has put ERR into the reply. */
    constructor ()
      ensures !finished && finishes == 0 && err == ERR
    {
      waitForSendCount, err, finished, finishes := 0, ERR, false, 0;
    }

    /** One confirmation, under waitForSndCntMtx. */
    method NotifyOne()
      modifies this
      ensures Count() == Notified(old(Count()))
    {
      waitForSendCount := (waitForSendCount + U32 - 1) % U32;
      if 0 == waitForSendCount {
        err, finished, finishes := SUCCESS, true, finishes + 1;
      }
    }

    /** The cache part of ProduceMsg: EXISTS, then BITOP AND and EXPIRE if it is missing. The
        caller passes the three RELEASE keys. Unless a command fails, it succeeds exactly if
        the key was there or the intersection is not empty, and builds only a missing key. */
    method EnsureCache(redis: RedisHandler) returns (ok: bool)
      modifies redis
      ensures redis.db == old(redis.db) || (TmpUserInfo !in old(redis.db) && redis.db == WithCache(old(redis.db)))
      ensures ok ==> TmpUserInfo in redis.db && redis.db == WithCache(old(redis.db))
      ensures ok ==> redis.failures == old(redis.failures)
      ensures redis.failures == old(redis.failures) ==>
                redis.db == WithCache(old(redis.db)) && (ok <==> TmpUserInfo in redis.db)
      ensures redis.failures >= old(redis.failures)
    {
      hide And3;
      var there := redis.Exists(TmpUserInfo);
      if there.None? { return false; }
      if there.value { return true; }
      ok := redis.Write((d: Db) => BitOpAnd(d, TmpUserInfo, Release(0), Release(1), Release(2)));
      if !ok || TmpUserInfo !in redis.db { return false; }
      var expirySet := redis.SetExpiry(TmpUserInfo);
      ok := expirySet.Some? && expirySet.value;
    }

    /** ProduceMsg up to the first send, while no other process writes the cached key. When
        the key ends before the byte of endUid, the bytes beyond the reply are whatever lies
        in memory behind it. Unless a command fails, it succeeds exactly if the key is there
        or can be built. */
    method ProduceMsg(redis: RedisHandler, startUid: nat, endUid: nat) returns (ret: ErrCode, uidsToSend: seq<nat>)
      requires startUid <= endUid && !finished && finishes == 0 && err == ERR
      modifies this, redis
      ensures redis.failures == old(redis.failures) ==>
                (ret == SUCCESS <==> TmpUserInfo in WithCache(old(redis.db)))
      ensures redis.db == old(redis.db) || redis.db == WithCache(old(redis.db))
      ensures ret == SUCCESS ==> redis.failures == old(redis.failures)
      ensures ret == ERR ==> Count() == old(Count()) && uidsToSend == []
      ensures ret == SUCCESS ==>
                && TmpUserInfo in redis.db && redis.db == WithCache(old(redis.db))
                && DecodesCopy(redis.db[TmpUserInfo], startUid, endUid, uidsToSend)
                && Count() == SendSession.Started(|uidsToSend|)
                && (endUid / BITS_PER_BYTE < |redis.db[TmpUserInfo]| ==>
                   uidsToSend == Pushed(redis.db[TmpUserInfo], startUid, endUid))
    {
      hide And3, DecodeBits;
      ret, uidsToSend := ERR, [];
      var ok := EnsureCache(redis);
      if !ok { return; }
      var reply := redis.ReadRange(TmpUserInfo, startUid / BITS_PER_BYTE, endUid / BITS_PER_BYTE);
      if reply.None? { return; }
      var len := endUid / BITS_PER_BYTE - startUid / BITS_PER_BYTE + 1;
      var userInfoStr := CopyOut(reply.value, len);
      assert CopyOfRange(redis.db[TmpUserInfo], startUid, endUid, userInfoStr);
      uidsToSend := DecodeUids(userInfoStr, startUid);
      if endUid / BITS_PER_BYTE < |redis.db[TmpUserInfo]| {
        WholeCopy(redis.db[TmpUserInfo], startUid, endUid, userInfoStr);
      }
      waitForSendCount := |uidsToSend| % U32;
      if |uidsToSend| == 0 {
        err, finished, finishes := SUCCESS, true, finishes + 1;
      }
      ret := SUCCESS;
    }
  }

  /** `string(reply->str, len)`: len bytes, of which the reply determines those it has. */
  predicate CopyOf(reply: Bitmap, len: nat, copy: Bitmap) {
    |copy| == len && forall i :: 0 <= i < len && i < |reply| ==> copy[i] == reply[i]
  }

  method CopyOut(reply: Bitmap, len: nat) returns (copy: Bitmap)
    ensures CopyOf(reply, len, copy)
  {
    var memory: nat -> bv8 := *;
    copy := seq(len, i requires 0 <= i => if i < |reply| then reply[i] else memory(i));
  }

  /** A copy of the bytes the source asks for. */
  predicate CopyOfRange(v: Bitmap, startUid: nat, endUid: nat, copy: Bitmap)
    requires startUid <= endUid
  {
    var lo, hi := startUid / BITS_PER_BYTE, endUid / BITS_PER_BYTE;
    CopyOf(GetRange(v, lo, hi), hi - lo + 1, copy)
  }

  /** The uids are decoded from such a copy of the requested byte range of v. */
  ghost predicate DecodesCopy(v: Bitmap, startUid: nat, endUid: nat, uids: seq<nat>)
    requires startUid <= endUid
  {
    exists copy :: CopyOfRange(v, startUid, endUid, copy) && uids == Decode(copy, startUid)
  }

  lemma WholeCopy(v: Bitmap, startUid: nat, endUid: nat, copy: Bitmap)
    requires startUid <= endUid && endUid / BITS_PER_BYTE < |v| && CopyOfRange(v, startUid, endUid, copy)
    ensures copy == GetRange(v, startUid / BITS_PER_BYTE, endUid / BITS_PER_BYTE)
  {
  }
}
