/** The update program: encode a user table into a bitmap window by window, compare it with
    the published one, and publish it by renaming. */
module UserInfoUpdate {
  import opened Words
  import opened Bits
  import opened Redis

  const DIFF_PERCENTAGE := 100

  /** `user_info_update_record`: the times recorded for each table, one per row. */
  type Records = map<nat, seq<int>>

  function Times(records: Records, tag: nat): seq<int> { if tag in records then records[tag] else [] }

  /** All rows of the table get this time. */
  function AllSet(times: seq<int>, now: int): seq<int> { seq(|times|, _ => now) }

  /** What a complete recording leaves: the rows of the table set to the new time, and one
      more row if no row was changed by that. */
  function Recorded(records: Records, tag: nat, now: int): Records {
    var times := Times(records, tag);
    records[tag := if times == AllSet(times, now) then times + [now] else AllSet(times, now)]
  }

  /** Then there is a row for the table, all its rows hold the new time, a row was added only
      if none held an older one, and the rows of other tables are as they were. */
  lemma RecordedRows(records: Records, tag: nat, now: int, other: nat)
    ensures var times, times' := Times(records, tag), Times(Recorded(records, tag, now), tag);
            && times' != [] && (forall i :: 0 <= i < |times'| ==> times'[i] == now)
            && |times'| == |times| + if exists i :: 0 <= i < |times| && times[i] != now then 0 else 1
    ensures other != tag ==> Times(Recorded(records, tag, now), other) == Times(records, other)
  {
    var times := Times(records, tag);
    if forall i :: 0 <= i < |times| ==> times[i] == now { assert times == AllSet(times, now); }
  }

  /** A MySQL connection; `failures` counts the statements reported to have failed, having
      taken effect or not. */
  class MysqlHandler {
    var records: Records
    ghost var failures: nat

    constructor (records: Records)
      ensures this.records == records && failures == 0
    {
      this.records, failures := records, 0;
    }

    /** The result of `SELECT uid FROM ... WHERE uid >= begin AND uid < begin + width`: the
        uids in any order, possibly repeated, possibly cut short; None on an error. */
    method SelectUids(begin: nat, width: nat) returns (rows: Option<seq<nat>>)
      modifies this`failures
      ensures rows.Some? ==> InWindow(rows.value, begin, width)
      ensures failures == old(failures) + if rows.None? then 1 else 0
    {
      var answer: Option<seq<nat>> := *;
      rows := if answer.Some? && InWindow(answer.value, begin, width) then answer else None;
      failures := failures + if rows.None? then 1 else 0;
    }

    /** `UPDATE ... SET last_update_time` and whether it changed any row. */
    method UpdateRecord(tag: nat, now: int) returns (ok: bool, affected: bool)
      modifies this
      ensures records == old(records) || records == old(records)[tag := AllSet(Times(old(records), tag), now)]
      ensures ok ==> records == old(records)[tag := AllSet(Times(old(records), tag), now)]
      ensures ok ==> (affected <==> Times(old(records), tag) != AllSet(Times(old(records), tag), now))
      ensures failures == old(failures) + if ok then 0 else 1
    {
      var executed: bool := *;
      ok := *;
      ok := ok && executed;
      var times := Times(records, tag);
      affected := times != AllSet(times, now);
      if executed {
        records := records[tag := AllSet(times, now)];
      }
      failures := failures + if ok then 0 else 1;
    }

    /** `INSERT INTO ...` a row with the time of a table. */
    method InsertRecord(tag: nat, now: int) returns (ok: bool)
      modifies this
      ensures records == old(records) || records == old(records)[tag := Times(old(records), tag) + [now]]
      ensures ok ==> records == old(records)[tag := Times(old(records), tag) + [now]]
      ensures failures == old(failures) + if ok then 0 else 1
    {
      var executed: bool := *;
      ok := *;
      ok := ok && executed;
      if executed {
        records := records[tag := Times(records, tag) + [now]];
      }
      failures := failures + if ok then 0 else 1;
    }

    /** Write last_update_time: UPDATE, and INSERT if no row was changed. */
    method RecordUpdate(tag: nat, now: int) returns (ok: bool)
      modifies this
      ensures RecordedOrNot(old(records), records, tag, now)
      ensures ok ==> records == Recorded(old(records), tag, now)
      ensures failures == old(failures) + if ok then 0 else 1
    {
      var affected;
      ok, affected := UpdateRecord(tag, now);
      if !ok { return; }
      if !affected {
        ok := InsertRecord(tag, now);
      }
    }
  }

  /** The rows are as before, or the UPDATE has run, or the whole recording has. */
  ghost predicate RecordedOrNot(records: Records, records': Records, tag: nat, now: int) {
    || records' == records
    || records' == records[tag := AllSet(Times(records, tag), now)]
    || records' == Recorded(records, tag, now)
  }

  predicate InWindow(rows: seq<nat>, begin: nat, width: nat) {
    forall i :: 0 <= i < |rows| ==> begin <= rows[i] < begin + width
  }

  /** Bit o is set exactly for a returned uid. */
  predicate Matches(bitmap: Bitmap, rows: seq<nat>, begin: nat, o: nat) {
    HasUid(bitmap, o) <==> begin + o in rows
  }

  /** The sub-bitmap of one window. */
  predicate WindowEncodes(bitmap: Bitmap, rows: seq<nat>, begin: nat, width: nat) {
    && BITS_PER_BYTE * |bitmap| == width
    && forall o: nat :: o < width ==> Matches(bitmap, rows, begin, o)
  }

  lemma EncodeRow(bitmap: Bitmap, rows: seq<nat>, begin: nat, width: nat, row: nat)
    requires WindowEncodes(bitmap, rows, begin, width) && begin <= row < begin + width
    ensures (row - begin) / BITS_PER_BYTE < |bitmap|
    ensures WindowEncodes(WithUid(bitmap, row - begin), rows + [row], begin, width)
  {
    hide HasUid, WithUid;
    var bitmap', rows' := WithUid(bitmap, row - begin), rows + [row];
    forall o: nat | o < width ensures Matches(bitmap', rows', begin, o) {
      assert Matches(bitmap, rows, begin, o);
      WithUidAdds(bitmap, row - begin, o);
    }
  }

  /** The row loop: every row sets one bit of a string of width / 8 zero bytes. */
  method EncodeWindow(rows: seq<nat>, begin: nat, width: nat) returns (bitmap: Bitmap)
    requires width % BITS_PER_BYTE == 0 && InWindow(rows, begin, width)
    ensures WindowEncodes(bitmap, rows, begin, width)
  {
    hide HasUid, Mask, WindowEncodes;
    var buffer := new bv8[width / BITS_PER_BYTE](_ => 0);
    EncodeNothing(buffer[..], begin, width);
    for i := 0 to |rows|
      invariant WindowEncodes(buffer[..], rows[..i], begin, width)
      invariant fresh(buffer)
    {
      var offset := rows[i] - begin;
      EncodeRow(buffer[..], rows[..i], begin, width, rows[i]);
      ghost var after := WithUid(buffer[..], offset);
      buffer[offset / BITS_PER_BYTE] := buffer[offset / BITS_PER_BYTE] | Mask(offset % BITS_PER_BYTE);
      assert buffer[..] == after;
      assert rows[..i + 1] == rows[..i] + [rows[i]];
    }
    assert rows[..|rows|] == rows;
    bitmap := buffer[..];
  }

  lemma EncodeNothing(bitmap: Bitmap, begin: nat, width: nat)
    requires BITS_PER_BYTE * |bitmap| == width && forall i :: 0 <= i < |bitmap| ==> bitmap[i] == 0
    ensures WindowEncodes(bitmap, [], begin, width)
  {
    hide HasUid;
    forall o: nat ensures !HasUid(bitmap, o) { ZerosEmpty(bitmap, o); }
  }

  // ---------- the whole table ----------

  /** bm is the bitmap of all windows: bit u is set exactly when u was returned for the
      window that contains u. */
  ghost predicate Encodes(bm: Bitmap, fetched: seq<seq<nat>>, width: nat)
    requires width > 0
  {
    && BITS_PER_BYTE * |bm| == |fetched| * width
    && forall u: nat :: u / width < |fetched| ==> UidMatches(bm, fetched, width, u)
  }

  ghost predicate UidMatches(bm: Bitmap, fetched: seq<seq<nat>>, width: nat, u: nat)
    requires width > 0 && u / width < |fetched|
  {
    HasUid(bm, u) <==> u in fetched[u / width]
  }

  lemma TimesMonotone(a: int, b: int, width: nat)
    requires a <= b
    ensures a * width <= b * width
  {
  }

  lemma DivisionBounds(u: nat, width: nat)
    requires width > 0
    ensures (u / width) * width <= u < (u / width) * width + width
  {
    assert u == (u / width) * width + u % width;
  }

  lemma WindowOf(u: nat, n: nat, width: nat)
    requires width > 0
    ensures u / width < n <==> u < n * width
    ensures n * width <= u < n * width + width ==> u / width == n
  {
    DivisionBounds(u, width);
    var q := u / width;
    assert (q + 1) * width == q * width + width;
    assert (n + 1) * width == n * width + width;
    if q < n { TimesMonotone(q + 1, n, width); } else { TimesMonotone(n, q, width); }
    if q > n { TimesMonotone(n + 1, q, width); }
  }

  lemma AppendedBits(a: Bitmap, b: Bitmap, u: nat)
    ensures HasUid(a + b, u) <==> if u < BITS_PER_BYTE * |a| then HasUid(a, u) else HasUid(b, u - BITS_PER_BYTE * |a|)
  {
    hide Bit;
    var i := u / BITS_PER_BYTE;
    if u < BITS_PER_BYTE * |a| {
      assert i < |a|;
    } else {
      assert (u - BITS_PER_BYTE * |a|) / BITS_PER_BYTE == i - |a|;
      assert (u - BITS_PER_BYTE * |a|) % BITS_PER_BYTE == u % BITS_PER_BYTE;
    }
  }

  /** The windows tile the uids: each uid can be returned for exactly one of them. */
  lemma WindowsTile(u: nat, n: nat, width: nat)
    requires width > 0
    ensures InWindow([u], n * width, width) <==> n == u / width
  {
    WindowOf(u, n, width);
    DivisionBounds(u, width);
    assert InWindow([u], n * width, width) <==> n * width <= [u][0] < n * width + width;
  }

  /** Appending the bitmap of the next window extends the encoding by that window. */
  lemma AppendWindow(temp: Bitmap, fetched: seq<seq<nat>>, bitmap: Bitmap, rows: seq<nat>, width: nat)
    requires width > 0 && Encodes(temp, fetched, width)
    requires WindowEncodes(bitmap, rows, |fetched| * width, width)
    ensures Encodes(temp + bitmap, fetched + [rows], width)
  {
    hide HasUid;
    var n, all, more := |fetched|, temp + bitmap, fetched + [rows];
    assert (n + 1) * width == n * width + width;
    forall u: nat | u / width < n + 1 ensures UidMatches(all, more, width, u) {
      AppendedBits(temp, bitmap, u);
      WindowOf(u, n, width);
      WindowOf(u, n + 1, width);
      if u < n * width {
        assert UidMatches(temp, fetched, width, u);
      } else {
        assert Matches(bitmap, rows, n * width, u - n * width);
      }
    }
  }

  /** The windows returned exactly the uids of this table. */
  ghost predicate Reads(fetched: seq<seq<nat>>, table: set<nat>, width: nat)
    requires width > 0
  {
    forall u: nat :: u / width < |fetched| ==> (u in fetched[u / width] <==> u in table)
  }

  /** The published bitmap then is the table, cut off after the last window. */
  lemma EncodingIsTable(bm: Bitmap, fetched: seq<seq<nat>>, table: set<nat>, width: nat, u: nat)
    requires width > 0 && Encodes(bm, fetched, width) && Reads(fetched, table, width)
    ensures HasUid(bm, u) <==> u in table && u < |fetched| * width
  {
    hide Bit;
    WindowOf(u, |fetched|, width);
    if u / width < |fetched| { assert UidMatches(bm, fetched, width, u); }
  }

  /** The databases agree outside these keys. */
  ghost predicate SameExcept(db: Db, db': Db, keys: set<Key>) {
    forall k :: k !in keys ==> SameAt(db, db', k)
  }

  ghost predicate SameAt(db: Db, db': Db, k: Key) {
    (k in db <==> k in db') && (k in db ==> db[k] == db'[k])
  }

  lemma SameChain(a: Db, b: Db, c: Db, first: set<Key>, second: set<Key>)
    requires SameExcept(a, b, first) && SameExcept(b, c, second)
    ensures SameExcept(a, c, first + second)
  {
    forall k | k !in first + second ensures SameAt(a, c, k) {
      assert SameAt(a, b, k) && SameAt(b, c, k);
    }
  }

  /** How many commands and statements have been reported to fail. */
  ghost function Failures(redis: RedisHandler, mysql: MysqlHandler): nat
    reads redis, mysql
  {
    redis.failures + mysql.failures
  }

  /** DEL of the TEMP key, then one SETRANGE per window up to and including END_UID. */
  method BuildTemp(redis: RedisHandler, mysql: MysqlHandler, tag: nat, width: nat,
                   endUid: nat) returns (ok: bool, fetched: seq<seq<nat>>)
    requires width > 0 && width % BITS_PER_BYTE == 0
    modifies redis, mysql`failures
    ensures SameExcept(old(redis.db), redis.db, {Temp(tag)})
    ensures ok ==> Temp(tag) in redis.db && Encodes(redis.db[Temp(tag)], fetched, width)
    ensures ok ==> |fetched| == endUid / width + 1
    ensures redis.failures >= old(redis.failures) && mysql.failures >= old(mysql.failures)
    ensures Failures(redis, mysql) == old(Failures(redis, mysql)) + if ok then 0 else 1
  {
    hide HasUid, WindowEncodes, Overwritten;
    fetched := [];
    var key := Temp(tag);
    ok := redis.Write((d: Db) => Deleted(d, key));
    if !ok { return; }
    ghost var temp: Bitmap := [];
    var uid := 0;
    while uid <= endUid
      invariant uid == |fetched| * width && (fetched == [] || uid - width <= endUid)
      invariant temp == Value(redis.db, key) && Encodes(temp, fetched, width)
      invariant fetched != [] ==> key in redis.db
      invariant SameExcept(old(redis.db), redis.db, {key})
      invariant redis.failures == old(redis.failures) && mysql.failures == old(mysql.failures)
      decreases endUid + width - uid
    {
      var rows := mysql.SelectUids(uid, width);
      if rows.None? { ok := false; return; }
      var bitmap := EncodeWindow(rows.value, uid, width);
      var offset := uid / BITS_PER_BYTE;
      WindowSize(bitmap, rows.value, temp, fetched, uid, width);
      ok := redis.Write((d: Db) => SetRange(d, key, offset, bitmap));
      if !ok { return; }
      OverwrittenAtEnd(temp, bitmap);
      AppendWindow(temp, fetched, bitmap, rows.value, width);
      temp := temp + bitmap;
      fetched := fetched + [rows.value];
      uid := uid + width;
    }
    LoopCount(|fetched|, width, endUid);
  }

  lemma WindowSize(bitmap: Bitmap, rows: seq<nat>, temp: Bitmap, fetched: seq<seq<nat>>, uid: nat, width: nat)
    requires width > 0 && width % BITS_PER_BYTE == 0 && uid == |fetched| * width
    requires WindowEncodes(bitmap, rows, uid, width) && Encodes(temp, fetched, width)
    ensures bitmap != [] && |temp| == uid / BITS_PER_BYTE
  {
  }

  lemma LoopCount(n: nat, width: nat, endUid: nat)
    requires width > 0 && n > 0 && (n - 1) * width <= endUid < n * width
    ensures n == endUid / width + 1
  {
    WindowOf(endUid, n - 1, width);
    assert n * width == (n - 1) * width + width;
  }

  // ---------- the difference check ----------

  predicate Accepts(bitcounts: nat, endUid: nat)
    requires endUid > 0
  {
    bitcounts as real * 100.0 / endUid as real < DIFF_PERCENTAGE as real
  }

  /** A difference below 100 percent means fewer changed uids than END_UID. */
  lemma AcceptsIffFewer(bitcounts: nat, endUid: nat)
    requires endUid > 0
    ensures Accepts(bitcounts, endUid) <==> bitcounts < endUid
  {
    var b, e := bitcounts as real, endUid as real;
    var q := b * 100.0 / e;
    assert q * e == b * 100.0;
    if q < 100.0 { assert q * e < 100.0 * e; } else { assert q * e >= 100.0 * e; }
  }

  /** The reply's 64-bit count goes into a uint32_t. */
  function DiffCount32(db: Db, tag: nat): nat { PopCount(Xor(Value(db, Release(tag)), Value(db, Temp(tag)))) % U32 }

  /** EXISTS, and if there is a published bitmap BITOP XOR and BITCOUNT; None if a command
      failed. The DEL of the DIFF key is not checked; unless it fails no DIFF key is left. */
  method CheckDiff(redis: RedisHandler, tag: nat, endUid: nat) returns (accept: Option<bool>)
    requires endUid > 0
    modifies redis
    ensures SameExcept(old(redis.db), redis.db, {Diff(tag)})
    ensures accept.Some? ==>
              (accept.value <==> Release(tag) !in old(redis.db) || DiffCount32(old(redis.db), tag) < endUid)
    ensures redis.failures >= old(redis.failures) + if accept.None? then 1 else 0
    ensures redis.failures == old(redis.failures) && Release(tag) in old(redis.db) ==> Diff(tag) !in redis.db
  {
    hide PopCount, Xor, Accepts;
    var published := redis.Exists(Release(tag));
    if published.None? { return None; }
    if !published.value { return Some(true); }
    var diff, release, temp := Diff(tag), Release(tag), Temp(tag);
    var ok := redis.Write((d: Db) => BitOpXor(d, diff, release, temp));
    if !ok { return None; }
    var count := redis.BitCount(diff);
    if count.None? { return None; }
    var bitcounts := count.value % U32;
    AcceptsIffFewer(bitcounts, endUid);
    accept := Some(Accepts(bitcounts, endUid));
    ok := redis.Write((d: Db) => Deleted(d, diff));
  }

  // ---------- publishing ----------

  /** Stopped: the update returned early, because something failed. */
  datatype Outcome = Stopped | Rejected | Published

  /** What a run of the update leaves behind for its table. */
  ghost predicate AllOrNothing(db: Db, db': Db, tag: nat, fetched: seq<seq<nat>>, width: nat, endUid: nat)
    requires width > 0
  {
    || SameAt(db, db', Release(tag))
    || (&& Release(tag) in db' && |fetched| == endUid / width + 1 && Encodes(db'[Release(tag)], fetched, width)
        && (Release(tag) in db ==> PopCount(Xor(db[Release(tag)], db'[Release(tag)])) % U32 < endUid))
  }

  /** The complete new bitmap was built but differs too much from the published one. */
  ghost predicate TooDifferent(db: Db, db': Db, tag: nat, fetched: seq<seq<nat>>, width: nat, endUid: nat)
    requires width > 0
  {
    && SameAt(db, db', Release(tag)) && Release(tag) in db && Temp(tag) in db'
    && |fetched| == endUid / width + 1 && Encodes(db'[Temp(tag)], fetched, width)
    && PopCount(Xor(db[Release(tag)], db'[Temp(tag)])) % U32 >= endUid
  }

  /** The complete new bitmap is published and TEMP is gone. */
  ghost predicate NewlyPublished(db: Db, tag: nat, fetched: seq<seq<nat>>, width: nat, endUid: nat)
    requires width > 0
  {
    && Release(tag) in db && |fetched| == endUid / width + 1 && Encodes(db[Release(tag)], fetched, width)
    && Temp(tag) !in db
  }

  /** The update of one user table. Whatever command fails, and whether or not a failed
      command took effect, the published bitmap is the old one or the complete encoding of
      this run's rows; it is replaced only if there was none or fewer than END_UID uids
      change. The update stops early only if something failed. Once it has published, the
      time is recorded, TEMP is gone, and so is the producers' cached key unless its DEL
      failed; an update that does not get there leaves the cached key alone. */
  method UpdateUserInfo(redis: RedisHandler, mysql: MysqlHandler, tag: nat, width: nat, endUid: nat,
                        now: int) returns (outcome: Outcome, fetched: seq<seq<nat>>)
    requires width > 0 && width % BITS_PER_BYTE == 0 && endUid > 0
    modifies redis, mysql
    ensures SameExcept(old(redis.db), redis.db, {Temp(tag), Diff(tag), Release(tag), TmpUserInfo})
    ensures AllOrNothing(old(redis.db), redis.db, tag, fetched, width, endUid)
    ensures outcome == Stopped ==> Failures(redis, mysql) > old(Failures(redis, mysql))
    ensures outcome == Rejected ==> TooDifferent(old(redis.db), redis.db, tag, fetched, width, endUid)
    ensures outcome == Published ==> NewlyPublished(redis.db, tag, fetched, width, endUid)
    ensures outcome == Published ==> mysql.records == Recorded(old(mysql.records), tag, now)
    ensures outcome != Stopped ==> mysql.failures == old(mysql.failures)
    ensures RecordedOrNot(old(mysql.records), mysql.records, tag, now)
    ensures outcome == Rejected ==> mysql.records == old(mysql.records)
    ensures outcome == Published && redis.failures == old(redis.failures) ==> TmpUserInfo !in redis.db
    ensures SameAt(old(redis.db), redis.db, TmpUserInfo) || (outcome == Published && TmpUserInfo !in redis.db)
    ensures redis.failures == old(redis.failures) && Release(tag) in old(redis.db) && outcome != Stopped ==>
              Diff(tag) !in redis.db
  {
    hide PopCount, Xor, Encodes, Recorded, AllSet, Times;
    outcome := Stopped;
    var ok;
    ok, fetched := BuildTemp(redis, mysql, tag, width, endUid);
    if !ok { return; }
    ghost var built := redis.db;
    var accept := CheckDiff(redis, tag, endUid);
    SameChain(old(redis.db), built, redis.db, {Temp(tag)}, {Diff(tag)});
    assert SameAt(old(redis.db), built, Release(tag)) && SameAt(built, redis.db, Release(tag));
    assert SameAt(built, redis.db, Temp(tag));
    assert SameAt(old(redis.db), redis.db, Release(tag)) && SameAt(old(redis.db), redis.db, TmpUserInfo);
    if accept.None? { return; }
    if !accept.value { return Rejected, fetched; }
    ok := redis.Rename(Temp(tag), Release(tag));
    if !ok { return; }
    ok := mysql.RecordUpdate(tag, now);
    if !ok { return; }
    ok := redis.Write((d: Db) => Deleted(d, TmpUserInfo));
    outcome := Published;
  }
}
