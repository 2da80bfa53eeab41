/** The cached intersection (TMP_USER_INFO_KEY) under concurrent use: any number of producer
    handlers that build and read it, and the update program that renames a new bitmap into
    place and then deletes the cache. Every Redis command is one atomic step, also when its
    reply is lost. */
module CacheProtocol {
  import opened Bits
  import opened Redis

  /** The three RELEASE bitmaps; a missing key reads as the empty string. */
  datatype Releases = Releases(r0: Bitmap, r1: Bitmap, r2: Bitmap)

  function Intersection(r: Releases): Bitmap { And3(r.r0, r.r1, r.r2) }

  function Published(r: Releases, tag: nat, bm: Bitmap): Releases
    requires tag < 3
  {
    if tag == 0 then r.(r0 := bm) else if tag == 1 then r.(r1 := bm) else r.(r2 := bm)
  }

  /** Where a handler is in the part of ProduceMsg that its process's redisMtx guards. */
  datatype Place = Building | Expiring | Reading

  /** releases, tmp and places are the real state. `publishing` says that the updater is
      between its RENAME and its DEL, `abandoned` that an update left that stretch without
      the DEL and the cache has not been deleted, expired or rebuilt since. `seen` lists the
      releases the cache may still show, oldest first, the current ones last. */
  datatype Cache = Cache(
    releases: Releases,
    tmp: Option<Bitmap>,
    places: map<nat, Place>,
    publishing: bool,
    abandoned: bool,
    seen: seq<Releases>)

  function Fresh(releases: Releases): Cache { Cache(releases, None, map[], false, false, [releases]) }

  datatype Event =
    | Rename(tag: nat, bm: Bitmap)    // RENAME takes effect, reply received or not
    | Abandon                         // the update returns early, or its DEL has no effect
    | Delete(finished: bool)          // DEL takes effect; finished if that was the end of it
    | Expire                          // Redis drops the key
    | AskExists(p: nat)               // EXISTS answered
    | BitOp(p: nat, answered: bool)   // BITOP AND takes effect
    | SetExpiry(p: nat)               // EXPIRE answered 1, so the key is there
    | Quit(p: nat)                    // a command failed, EXISTS included: ProduceMsg returns
    | Read(p: nat)                    // GETRANGE answered

  predicate Enabled(c: Cache, e: Event) {
    match e
    case Rename(tag, bm) => tag < 3 && !c.publishing
    case Abandon => c.publishing
    case Delete(finished) => c.publishing
    case Expire => true
    case AskExists(p) => p !in c.places
    case BitOp(p, answered) => p in c.places && c.places[p] == Building
    case SetExpiry(p) => p in c.places && c.places[p] == Expiring && c.tmp.Some?
    case Quit(p) => true
    case Read(p) => p in c.places && c.places[p] == Reading
  }

  /** The cache is gone or has just been rebuilt: only the current releases can be seen. */
  function Clean(c: Cache): Cache { c.(abandoned := false, seen := [c.releases]) }

  function Step(c: Cache, e: Event): Cache
    requires Enabled(c, e)
  {
    match e
    case Rename(tag, bm) =>
      var r := Published(c.releases, tag, bm);
      c.(releases := r, publishing := true, seen := c.seen + [r])
    case Abandon => c.(publishing := false, abandoned := true)
    case Delete(finished) => Clean(c.(tmp := None, publishing := !finished))
    case Expire => Clean(c.(tmp := None))
    case AskExists(p) => c.(places := c.places[p := if c.tmp.Some? then Reading else Building])
    case BitOp(p, answered) =>
      var v := Intersection(c.releases);
      var built := Clean(c.(tmp := if v == [] then None else Some(v)));
      if !answered then built
      else if v == [] then built.(places := c.places - {p})
      else built.(places := c.places[p := Expiring])
    case SetExpiry(p) => c.(places := c.places[p := Reading])
    case Quit(p) => c.(places := c.places - {p})
    case Read(p) => c.(places := c.places - {p})
  }

  ghost predicate Shows(c: Cache, i: nat)
    requires c.tmp.Some? && i < |c.seen|
  {
    c.tmp.value == Intersection(c.seen[i])
  }

  ghost predicate Inv(c: Cache) {
    && c.seen != [] && c.seen[|c.seen| - 1] == c.releases
    && (c.tmp.Some? ==> exists i :: 0 <= i < |c.seen| && Shows(c, i))
    && (!c.abandoned ==> |c.seen| <= 2)
    && (!c.abandoned && !c.publishing ==> |c.seen| == 1)
  }

  lemma InvStep(c: Cache, e: Event)
    requires Inv(c) && Enabled(c, e)
    ensures Inv(Step(c, e))
  {
    hide And3;
    var c' := Step(c, e);
    if c.tmp.Some? && c'.tmp == c.tmp {
      var i :| 0 <= i < |c.seen| && Shows(c, i);
      if |c'.seen| >= |c.seen| { assert c'.seen[i] == c.seen[i]; assert Shows(c', i); }
    }
    if e.BitOp? && c'.tmp.Some? { assert Shows(c', 0); }
  }

  lemma QuietShowsCurrent(c: Cache)
    requires Inv(c) && c.tmp.Some? && !c.publishing && !c.abandoned
    ensures c.tmp.value == Intersection(c.releases)
  {
    hide And3;
    var i :| 0 <= i < |c.seen| && Shows(c, i);
  }

  datatype Run = Run(states: seq<Cache>, events: seq<Event>)

  ghost predicate Next(c: Cache, e: Event, c': Cache) { Enabled(c, e) && c' == Step(c, e) }

  ghost predicate IsRun(r: Run) {
    && |r.states| == |r.events| + 1
    && r.states[0] == Fresh(r.states[0].releases)
    && forall i :: 0 <= i < |r.events| ==> Next(r.states[i], r.events[i], r.states[i + 1])
  }

  lemma {:induction false} InvHolds(r: Run, n: nat)
    requires IsRun(r) && n <= |r.events|
    ensures Inv(r.states[n])
  {
    hide Step, Enabled;
    if n > 0 {
      InvHolds(r, n - 1);
      assert Next(r.states[n - 1], r.events[n - 1], r.states[n - 1 + 1]);
      InvStep(r.states[n - 1], r.events[n - 1]);
    }
  }

  /** The cached key is deleted, expires, or is written anew. */
  predicate Touches(e: Event) { e.Delete? || e.Expire? || e.BitOp? }

  lemma EnterState(r: Run, n: nat)
    requires IsRun(r) && 0 < n <= |r.events|
    ensures Enabled(r.states[n - 1], r.events[n - 1]) && r.states[n] == Step(r.states[n - 1], r.events[n - 1])
  {
    hide Step, Enabled;
    assert Next(r.states[n - 1], r.events[n - 1], r.states[n - 1 + 1]);
  }

  // ---------- the two flags, told from the events ----------

  /** An update ends with its DEL or by returning early. */
  predicate Ends(e: Event) { e.Abandon? || (e.Delete? && e.finished) }

  /** The update that renamed at m has not ended before state n. */
  predicate UnderWay(r: Run, m: nat, n: nat)
    requires m < n <= |r.events|
  {
    r.events[m].Rename? && forall i :: m < i < n ==> !Ends(r.events[i])
  }

  /** The update abandoned at m has left its cache alone until state n. */
  predicate LeftBehind(r: Run, m: nat, n: nat)
    requires m < n <= |r.events|
  {
    r.events[m].Abandon? && forall i :: m < i < n ==> !Touches(r.events[i])
  }

  ghost predicate UpdateUnderWay(r: Run, n: nat)
    requires n <= |r.events|
  {
    exists m :: 0 <= m < n && UnderWay(r, m, n)
  }

  ghost predicate UpdateLeftBehind(r: Run, n: nat)
    requires n <= |r.events|
  {
    exists m :: 0 <= m < n && LeftBehind(r, m, n)
  }

  /** `publishing` says that a RENAME has not been followed by the end of its update, and
      `abandoned` that an update returned early and nothing has touched the key since. */
  lemma {:induction false} FlagsMean(r: Run, n: nat)
    requires IsRun(r) && n <= |r.events|
    ensures r.states[n].publishing <==> UpdateUnderWay(r, n)
    ensures r.states[n].abandoned <==> UpdateLeftBehind(r, n)
  {
    hide And3, UnderWay, LeftBehind;
    if n > 0 {
      FlagsMean(r, n - 1);
      EnterState(r, n);
      UnderWayStep(r, n - 1);
      LeftBehindStep(r, n - 1);
    }
  }

  lemma UnderWayStep(r: Run, n: nat)
    requires n < |r.events|
    ensures UpdateUnderWay(r, n + 1) <==> r.events[n].Rename? || (UpdateUnderWay(r, n) && !Ends(r.events[n]))
  {
    if UpdateUnderWay(r, n + 1) {
      var m :| 0 <= m < n + 1 && UnderWay(r, m, n + 1);
      if m < n { assert UnderWay(r, m, n); }
    }
    if r.events[n].Rename? {
      assert UnderWay(r, n, n + 1);
    } else if UpdateUnderWay(r, n) && !Ends(r.events[n]) {
      var m :| 0 <= m < n && UnderWay(r, m, n);
      assert UnderWay(r, m, n + 1);
    }
  }

  lemma LeftBehindStep(r: Run, n: nat)
    requires n < |r.events|
    ensures UpdateLeftBehind(r, n + 1) <==> r.events[n].Abandon? || (UpdateLeftBehind(r, n) && !Touches(r.events[n]))
  {
    if UpdateLeftBehind(r, n + 1) {
      var m :| 0 <= m < n + 1 && LeftBehind(r, m, n + 1);
      if m < n { assert LeftBehind(r, m, n); }
    }
    if r.events[n].Abandon? {
      assert LeftBehind(r, n, n + 1);
    } else if UpdateLeftBehind(r, n) && !Touches(r.events[n]) {
      var m :| 0 <= m < n && LeftBehind(r, m, n);
      assert LeftBehind(r, m, n + 1);
    }
  }

  /** Coherence over all interleavings: an existing cache is the AND of the three current
      bitmaps, unless the updater is between RENAME and DEL or abandoned an update there. */
  lemma CacheCoherent(r: Run, n: nat, u: nat)
    requires IsRun(r) && n <= |r.events|
    ensures var c := r.states[n];
            c.tmp.Some? && !c.publishing && !c.abandoned ==>
              && c.tmp.value == Intersection(c.releases)
              && (HasUid(c.tmp.value, u) <==>
                    HasUid(c.releases.r0, u) && HasUid(c.releases.r1, u) && HasUid(c.releases.r2, u))
  {
    hide And3, HasUid;
    InvHolds(r, n);
    var c := r.states[n];
    AndIntersects(c.releases.r0, c.releases.r1, c.releases.r2, u);
  }

  // ---------- what the cached key shows, told from the events ----------

  /** The command at m was the last one to write the cached key before state n. */
  predicate BuiltAt(r: Run, m: nat, n: nat)
    requires m < n <= |r.events|
  {
    r.events[m].BitOp? && forall i :: m < i < n ==> !Touches(r.events[i])
  }

  /** An existing cache is the intersection of the bitmaps that were published when the last
      BITOP ran, never a mixture; and nothing has deleted it since. */
  lemma {:induction false} CacheIsAsBuilt(r: Run, n: nat) returns (m: nat)
    requires IsRun(r) && n <= |r.events| && r.states[n].tmp.Some?
    ensures m < n && BuiltAt(r, m, n) && r.states[n].tmp.value == Intersection(r.states[m].releases)
  {
    hide And3;
    EnterState(r, n);
    if r.events[n - 1].BitOp? {
      m := n - 1;
    } else {
      m := CacheIsAsBuilt(r, n - 1);
    }
  }

  /** The command at m is the latest RENAME before state n. */
  predicate RenamedAt(r: Run, m: nat, n: nat)
    requires m < n <= |r.events|
  {
    r.events[m].Rename? && forall i :: m < i < n ==> !r.events[i].Rename?
  }

  /** While an update is between its RENAME and its DEL, the older entry of `seen` is what was
      published just before that RENAME. */
  lemma {:induction false} OlderIsBeforeRename(r: Run, n: nat) returns (m: nat)
    requires IsRun(r) && n <= |r.events|
    requires r.states[n].publishing && !r.states[n].abandoned && |r.states[n].seen| == 2
    ensures m < n && RenamedAt(r, m, n) && r.states[n].seen[0] == r.states[m].releases
  {
    hide And3;
    EnterState(r, n);
    InvHolds(r, n - 1);
    if r.events[n - 1].Rename? {
      m := n - 1;
    } else {
      m := OlderIsBeforeRename(r, n - 1);
    }
  }

  /** The value the cached key had before the latest RENAME. */
  ghost predicate ShowsBeforeRename(r: Run, m: nat, n: nat)
    requires IsRun(r) && m < n <= |r.events| && r.states[n].tmp.Some?
  {
    RenamedAt(r, m, n) && r.states[n].tmp.value == Intersection(r.states[m].releases)
  }

  /** While no update was abandoned, a read sees the current intersection or, between RENAME
      and DEL, the one of the bitmaps published just before that RENAME. */
  lemma StaleByAtMostOne(r: Run, n: nat)
    requires IsRun(r) && n <= |r.events|
    ensures var c := r.states[n];
            c.tmp.Some? && !c.abandoned ==>
              c.tmp.value == Intersection(c.releases)
              || (c.publishing && exists m :: 0 <= m < n && ShowsBeforeRename(r, m, n))
  {
    hide And3;
    InvHolds(r, n);
    var c := r.states[n];
    if c.tmp.Some? && !c.abandoned && c.tmp.value != Intersection(c.releases) {
      var i :| 0 <= i < |c.seen| && Shows(c, i);
      var m := OlderIsBeforeRename(r, n);
      assert ShowsBeforeRename(r, m, n);
    }
  }

  // ---------- exactly when a cache left behind is wrong ----------

  function Bitmaps(r: Releases, tag: nat): Bitmap
    requires tag < 3
  {
    if tag == 0 then r.r0 else if tag == 1 then r.r1 else r.r2
  }

  /** Both bitmaps other than that of tag hold u. */
  predicate InOthers(r: Releases, tag: nat, u: nat)
    requires tag < 3
  {
    HasUid(Bitmaps(r, (tag + 1) % 3), u) && HasUid(Bitmaps(r, (tag + 2) % 3), u)
  }

  /** What a RENAME would make an unchanged cache wrong about: uids it adds to or takes from
      its table that the other two tables hold. */
  predicate Misses(before: Releases, tag: nat, bm: Bitmap, u: nat)
    requires tag < 3
  {
    HasUid(bm, u) != HasUid(Bitmaps(before, tag), u) && InOthers(before, tag, u)
  }

  lemma PublishedBits(before: Releases, tag: nat, bm: Bitmap, u: nat)
    requires tag < 3
    ensures HasUid(Intersection(before), u) != HasUid(Intersection(Published(before, tag, bm)), u)
            <==> Misses(before, tag, bm, u)
  {
    hide And3, HasUid;
    var after := Published(before, tag, bm);
    AndIntersects(before.r0, before.r1, before.r2, u);
    AndIntersects(after.r0, after.r1, after.r2, u);
  }

  /** From the RENAME at m to state n no command touched the cached key or published again. */
  ghost predicate LeftAlone(r: Run, m: nat, n: nat)
    requires IsRun(r) && m < n <= |r.events|
  {
    r.events[m].Rename? && forall i :: m < i < n ==> !Touches(r.events[i]) && !r.events[i].Rename?
  }

  lemma {:induction false} LeftAsItWas(r: Run, m: nat, n: nat)
    requires IsRun(r) && m < n <= |r.events| && LeftAlone(r, m, n)
    ensures Enabled(r.states[m], r.events[m])
    ensures r.states[n].tmp == r.states[m].tmp
    ensures r.states[n].releases == Published(r.states[m].releases, r.events[m].tag, r.events[m].bm)
    decreases n
  {
    hide And3;
    EnterState(r, n);
    if m < n - 1 {
      assert LeftAlone(r, m, n - 1);
      LeftAsItWas(r, m, n - 1);
    }
  }

  /** A cache that was right when an update renamed, and that nothing has touched since, is
      wrong about u if and only if the RENAME changed u in its table and both other tables
      hold u. This is so while the update runs and after it was abandoned alike; before the
      RENAME every caller can evaluate the condition. */
  lemma LeftCacheWrongIff(r: Run, m: nat, n: nat, u: nat)
    requires IsRun(r) && m < n <= |r.events| && LeftAlone(r, m, n)
    requires r.states[m].tmp.Some? && !r.states[m].publishing && !r.states[m].abandoned
    ensures r.events[m].tag < 3 && r.states[n].tmp.Some?
    ensures HasUid(r.states[n].tmp.value, u) != HasUid(Intersection(r.states[n].releases), u)
            <==> Misses(r.states[m].releases, r.events[m].tag, r.events[m].bm, u)
  {
    hide And3, HasUid, Step, Misses;
    LeftAsItWas(r, m, n);
    CacheCoherent(r, m, u);
    PublishedBits(r.states[m].releases, r.events[m].tag, r.events[m].bm, u);
  }

  /** One such run: an update that fails to record its time after the RENAME leaves a cache
      that misses a published uid, with no update in progress. */
  lemma AbandonedUpdateLeavesStale() returns (r: Run)
    ensures IsRun(r)
    ensures var c := r.states[|r.events|];
            c.tmp.Some? && !c.publishing && c.abandoned && c.tmp.value != Intersection(c.releases)
  {
    var c0 := Fresh(Releases([0], [0x80], [0x80]));
    var e0, e1, e2, e3 := AskExists(0), BitOp(0, true), Rename(0, [0x80]), Abandon;
    var c1 := Step(c0, e0);
    var c2 := Step(c1, e1);
    assert Intersection(c1.releases) == [0] by { assert AndByte(0, 0x80, 0x80) == 0; }
    var c3 := Step(c2, e2);
    var c4 := Step(c3, e3);
    assert Intersection(c4.releases)[0] == 0x80 by { assert AndByte(0x80, 0x80, 0x80) == 0x80; }
    r := Run([c0, c1, c2, c3, c4], [e0, e1, e2, e3]);
  }

  // ---------- what a handler does follows the replies it got ----------

  /** An event of handler p. */
  predicate Own(e: Event, p: nat) { (e.AskExists? || e.BitOp? || e.SetExpiry? || e.Quit? || e.Read?) && e.p == p }

  /** The reply after which a handler is at this place: it builds because EXISTS found no key,
      sets the expiry because its BITOP was answered and left a key, and reads because EXISTS
      or EXPIRE said that the key is there. */
  predicate Told(c: Cache, e: Event, p: nat, place: Place) {
    match place
    case Building => e == AskExists(p) && c.tmp.None?
    case Expiring => e == BitOp(p, true) && Intersection(c.releases) != []
    case Reading => (e == AskExists(p) || e == SetExpiry(p)) && c.tmp.Some?
  }

  /** Since the event at m handler p has had no reply. */
  predicate NoReplySince(r: Run, m: nat, n: nat, p: nat)
    requires m < n <= |r.events|
  {
    forall i :: m < i < n && Own(r.events[i], p) ==> r.events[i] == BitOp(p, false)
  }

  /** A handler is where its latest reply sends it. */
  lemma {:induction false} PlaceFollowsReplies(r: Run, n: nat, p: nat) returns (m: nat)
    requires IsRun(r) && n <= |r.events| && p in r.states[n].places
    ensures m < n && NoReplySince(r, m, n, p) && Told(r.states[m], r.events[m], p, r.states[n].places[p])
  {
    hide And3;
    EnterState(r, n);
    var e := r.events[n - 1];
    if Own(e, p) && e != BitOp(p, false) {
      m := n - 1;
    } else {
      m := PlaceFollowsReplies(r, n - 1, p);
    }
  }

  // ---------- a reader without a key ----------

  predicate Drops(c: Cache, e: Event) { e.Delete? || e.Expire? || (e.BitOp? && Intersection(c.releases) == []) }

  predicate Builds(c: Cache, e: Event) { e.BitOp? && Intersection(c.releases) != [] }

  /** The key was dropped at i and has not been built again before state n. */
  predicate DroppedAt(r: Run, i: nat, n: nat)
    requires i < n <= |r.events| && |r.states| == |r.events| + 1
  {
    Drops(r.states[i], r.events[i]) && forall j :: i < j < n ==> !Builds(r.states[j], r.events[j])
  }

  ghost predicate DroppedSince(r: Run, m: nat, n: nat)
    requires n <= |r.events| && |r.states| == |r.events| + 1
  {
    exists i :: m < i < n && DroppedAt(r, i, n)
  }

  lemma DroppedStep(r: Run, m: nat, n: nat)
    requires IsRun(r) && m + 1 < n <= |r.events|
    ensures var c, e := r.states[n - 1], r.events[n - 1];
            DroppedSince(r, m, n) <==> Drops(c, e) || (DroppedSince(r, m, n - 1) && !Builds(c, e))
  {
    hide And3;
    var c, e := r.states[n - 1], r.events[n - 1];
    if DroppedSince(r, m, n) {
      var i :| m < i < n && DroppedAt(r, i, n);
      assert DroppedAt(r, i, n);
      if i < n - 1 { assert DroppedAt(r, i, n - 1); }
    }
    if Drops(c, e) { assert DroppedAt(r, n - 1, n); }
    if DroppedSince(r, m, n - 1) && !Builds(c, e) {
      var i :| m < i < n - 1 && DroppedAt(r, i, n - 1);
      assert DroppedAt(r, i, n - 1);
      assert DroppedAt(r, i, n);
    }
  }

  lemma {:induction false} KeyGoneIff(r: Run, m: nat, n: nat)
    requires IsRun(r) && m < n <= |r.events| && r.states[m + 1].tmp.Some?
    ensures r.states[n].tmp.None? <==> DroppedSince(r, m, n)
    decreases n
  {
    hide And3, DroppedSince;
    if m + 1 < n {
      EnterState(r, n);
      KeyGoneIff(r, m, n - 1);
      DroppedStep(r, m, n);
    } else {
      NothingDropped(r, m, n);
    }
  }

  lemma NothingDropped(r: Run, m: nat, n: nat)
    requires IsRun(r) && n <= |r.events| && n == m + 1
    ensures !DroppedSince(r, m, n)
  {
  }

  predicate AboutToRead(c: Cache, p: nat) { p in c.places && c.places[p] == Reading }

  /** A handler that EXISTS or EXPIRE told the key is there finds none at its GETRANGE if and
      only if since then the key was deleted, expired or emptied by a BITOP, and not built
      again. The source does not look at the length of what it then copies. */
  lemma ReaderFindsNoKey(r: Run, m: nat, n: nat, p: nat)
    requires IsRun(r) && m < n <= |r.events|
    requires !AboutToRead(r.states[m], p) && AboutToRead(r.states[m + 1], p)
    ensures r.states[n].tmp.None? <==> DroppedSince(r, m, n)
  {
    hide DroppedSince, And3;
    EnterState(r, m + 1);
    KeyGoneIff(r, m, n);
  }

  /** It does happen: the key can expire between EXPIRE and GETRANGE. */
  lemma AReaderFindsNoKey() returns (r: Run)
    ensures IsRun(r)
    ensures var c := r.states[|r.events|]; AboutToRead(c, 0) && c.tmp.None?
  {
    var c0 := Fresh(Releases([0x80], [0x80], [0x80]));
    var c1 := Step(c0, AskExists(0));
    assert |Intersection(c1.releases)| == 1;
    var c2 := Step(c1, BitOp(0, true));
    var c3 := Step(c2, SetExpiry(0));
    var c4 := Step(c3, Expire);
    r := Run([c0, c1, c2, c3, c4], [AskExists(0), BitOp(0, true), SetExpiry(0), Expire]);
  }
}
