/** The Redis database as far as the programs use it, and a handler whose commands may
    report failure whether or not they took effect. */
module Redis {
  import opened Bits

  /** The keys of common.cpp, one triple per user table. */
  datatype Key = Temp(tag: nat) | Release(tag: nat) | Diff(tag: nat) | TmpUserInfo

  type Db = map<Key, Bitmap>

  function Value(db: Db, k: Key): Bitmap { if k in db then db[k] else [] }

  function Zeros(n: nat): Bitmap { seq(n, _ => 0) }

  /** `v` overwritten from `offset` on, with zero bytes up to there if it was shorter. */
  function Overwritten(v: Bitmap, offset: nat, s: Bitmap): Bitmap {
    var padded := if |v| < offset then v + Zeros(offset - |v|) else v;
    padded[..offset] + s + if |padded| > offset + |s| then padded[offset + |s|..] else []
  }

  function SetRange(db: Db, k: Key, offset: nat, s: Bitmap): Db {
    if s == [] then db else db[k := Overwritten(Value(db, k), offset, s)]
  }

  /** BITOP deletes its destination when the result is empty. */
  function Stored(db: Db, k: Key, v: Bitmap): Db { if v == [] then db - {k} else db[k := v] }

  function BitOpXor(db: Db, dest: Key, a: Key, b: Key): Db { Stored(db, dest, Xor(Value(db, a), Value(db, b))) }

  function BitOpAnd(db: Db, dest: Key, a: Key, b: Key, c: Key): Db {
    Stored(db, dest, And3(Value(db, a), Value(db, b), Value(db, c)))
  }

  function Renamed(db: Db, a: Key, b: Key): Db
    requires a in db
  {
    db[b := db[a]] - if a == b then {} else {a}
  }

  function Deleted(db: Db, k: Key): Db { db - {k} }

  /** GETRANGE with both ends included, cut off at the end of the string. */
  function GetRange(v: Bitmap, lo: nat, hi: nat): Bitmap {
    var stop := if hi + 1 < |v| then hi + 1 else |v|;
    if lo < stop then v[lo..stop] else []
  }

  datatype Option<T> = None | Some(value: T)

  /** A connection. A NULL reply (None, false) says nothing about whether the command ran;
      `failures` counts them. */
  class RedisHandler {
    var db: Db
    ghost var failures: nat

    constructor (db: Db)
      ensures this.db == db && failures == 0
    {
      this.db, failures := db, 0;
    }

    /** A command that writes; `effect` is what Redis does when it executes it. */
    method Write(effect: Db -> Db) returns (ok: bool)
      modifies this
      ensures db == old(db) || db == effect(old(db))
      ensures ok ==> db == effect(old(db))
      ensures failures == old(failures) + if ok then 0 else 1
    {
      var executed: bool := *;
      ok := *;
      if executed {
        db := effect(db);
      } else {
        ok := false;
      }
      failures := failures + if ok then 0 else 1;
    }

    /** RENAME is an error if the source is missing. */
    method Rename(a: Key, b: Key) returns (ok: bool)
      modifies this
      ensures db == old(db) || (a in old(db) && db == Renamed(old(db), a, b))
      ensures ok ==> a in old(db) && db == Renamed(old(db), a, b)
      ensures failures == old(failures) + if ok then 0 else 1
    {
      if a in db {
        var source, dest := a, b;
        ok := Write((d: Db) => if source in d then Renamed(d, source, dest) else d);
      } else {
        ok := false;
        failures := failures + 1;
      }
    }

    /** A command that only reads. */
    method Ask() returns (answered: bool)
      modifies this`failures
      ensures failures == old(failures) + if answered then 0 else 1
    {
      answered := *;
      failures := failures + if answered then 0 else 1;
    }

    method Exists(k: Key) returns (reply: Option<bool>)
      modifies this`failures
      ensures reply.Some? ==> reply.value == (k in db)
      ensures failures == old(failures) + if reply.None? then 1 else 0
    {
      var answered := Ask();
      reply := if answered then Some(k in db) else None;
    }

    /** EXPIRE answers whether the key is there; the remaining time to live is not modelled. */
    method SetExpiry(k: Key) returns (reply: Option<bool>)
      modifies this`failures
      ensures reply.Some? ==> reply.value == (k in db)
      ensures failures == old(failures) + if reply.None? then 1 else 0
    {
      var answered := Ask();
      reply := if answered then Some(k in db) else None;
    }

    method BitCount(k: Key) returns (reply: Option<nat>)
      modifies this`failures
      ensures reply.Some? ==> reply.value == PopCount(Value(db, k))
      ensures failures == old(failures) + if reply.None? then 1 else 0
    {
      var answered := Ask();
      reply := if answered then Some(PopCount(Value(db, k))) else None;
    }

    method ReadRange(k: Key, lo: nat, hi: nat) returns (reply: Option<Bitmap>)
      modifies this`failures
      ensures reply.Some? ==> reply.value == GetRange(Value(db, k), lo, hi)
      ensures failures == old(failures) + if reply.None? then 1 else 0
    {
      var answered := Ask();
      reply := if answered then Some(GetRange(Value(db, k), lo, hi)) else None;
    }
  }

  /** What SETRANGE leaves at every position: the new bytes, the old ones around them, and
      zero bytes in a gap between. */
  lemma OverwrittenBytes(v: Bitmap, offset: nat, s: Bitmap, i: nat)
    requires s != []
    ensures |Overwritten(v, offset, s)| == Longer(|v|, offset + |s|)
    ensures At(Overwritten(v, offset, s), i) == if offset <= i < offset + |s| then s[i - offset] else At(v, i)
  {
  }

  /** Writing right behind the end of a string appends to it. */
  lemma OverwrittenAtEnd(v: Bitmap, s: Bitmap)
    ensures Overwritten(v, |v|, s) == v + s
  {
  }
}
