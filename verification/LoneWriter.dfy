/**
 Lone-writer refinement: while one process owns the only log of a prefix and the clock does not run
 backwards, the cache answers like a plain map with expiry times.
 */
module LoneWriter {
  import opened Bytes
  import opened Options
  import opened Expiry
  import opened Order
  import opened Pickle
  import opened Frames
  import opened ScanFacts
  import opened Fold
  import opened Store
  import opened Index
  import opened Reading
  import opened Compaction
  import opened Consolidation
  import opened LogCaches

  // ------------------------------------------------------------------ the plain map

  datatype Slot = Slot(value: PyObj, expiry: Option<int>)

  type Table = map<string, Slot>

  predicate Alive(m: Table, key: string, now: int) {
    key in m && (m[key].expiry.None? || m[key].expiry.value >= now)
  }

  function AliveKeys(m: Table, now: int): set<string> {
    set k | k in m && Alive(m, k, now)
  }

  // ------------------------------------------------------------------ representation

  /** Our log reads through to its end. */
  ghost predicate Whole(env: Env, data: bytes) {
    IntactEnd(env, data, 0) == |data|
  }

  ghost predicate SoleLog(env: Env, own: string, logs: map<string, LogFile>) {
    && logs.Keys <= {own}
    && (own in logs ==> logs[own].readable && Whole(env, logs[own].data))
  }

  /** The records of a prefix whose only log is ours. */
  function OwnItems(env: Env, own: string, logs: map<string, LogFile>): seq<Located> {
    if own in logs then ScanLog(env, own, logs[own].data) else []
  }

  lemma {:induction false} SoleItems(env: Env, own: string, logs: map<string, LogFile>)
    requires SoleLog(env, own, logs)
    ensures AllItems(env, logs) == OwnItems(env, own, logs)
  {
    hide ScanLog;
    if own in logs {
      assert logs.Keys == {own};
      OneName(own);
      assert Gather(env, logs, [own]) == Gather(env, logs, []) + ScanLog(env, own, logs[own].data);
    } else {
      assert logs.Keys == {};
      NoNames();
    }
  }

  lemma {:induction false} NoNames()
    ensures SortedNames({}) == []
  {
    CodesInjective();
  }

  lemma {:induction false} OneName(own: string)
    ensures SortedNames({own}) == [own]
  {
    CodesInjective();
    assert First({own}, Codes) == own;
    assert {own} - {own} == {};
    assert SortedSet<string>({}, Codes) == [];
  }

  /** The pool holds exactly hashed contents, from a collision-free set of blobs. */
  ghost predicate HashedPool(env: Env, prefix: string, pool: map<string, PoolFile>, blobs: set<bytes>) {
    && (forall a, b :: a in blobs && b in blobs && env.sha(a) == env.sha(b) ==> a == b)
    && (forall rel :: rel in pool ==> pool[rel].data in blobs && rel == PoolPath(env, prefix, pool[rel].data))
  }

  /** The record holds this entry's value: inline, or in its pool file. */
  ghost predicate Holds(env: Env, pool: map<string, PoolFile>, r: Record, e: Slot) {
    && !r.deleted
    && r.expireTime == (if e.expiry.Some? then Some(Ticks(e.expiry.value)) else None)
    && if r.Spilled()
       then r.spill.value in pool && pool[r.spill.value].data == env.dumps(e.value) && env.storable(e.value)
       else r.value == Inline(e.value)
  }

  /** The latest-wins record of a key is the map's entry for it, or dead with it. */
  ghost predicate Represents(env: Env, items: seq<Located>, pool: map<string, PoolFile>, m: Table, key: string,
                             clock: int) {
    var w := Winner(items, key);
    if Alive(m, key, clock) then w.Some? && Holds(env, pool, w.value.rec, m[key])
    else w.None? || !w.value.rec.LiveAt(clock)
  }

  /** The index leads to the latest-wins record of a key, or to nothing when that record is dead. */
  ghost predicate Leads(env: Env, logs: map<string, LogFile>, items: seq<Located>, ix: PackedIndex, key: string,
                        clock: int)
    requires WellShaped(ix)
  {
    var w, loc := Winner(items, key), Index.Find(ix, env.digest(key));
    if loc.None? then w.None? || !w.value.rec.LiveAt(clock)
    else w.Some? && ReadVerified(env, logs, key, loc.value) == Some(w.value.rec)
  }

  /** All of it, for one moment of the clock and one finite set of keys and blobs in use. */
  ghost predicate Inv(env: Env, prefix: string, own: string, dir: Dir, index: Option<PackedIndex>, m: Table, clock: int,
                      keys: set<string>, blobs: set<bytes>)
  {
    var items := OwnItems(env, own, dir.logs);
    && SoleLog(env, own, dir.logs) && HashedPool(env, prefix, dir.pool, blobs)
    && CollisionFree(env, keys) && m.Keys <= keys
    && (forall x :: x in items ==> x.rec.Time() <= clock && x.rec.key in keys)
    && (forall key :: Represents(env, items, dir.pool, m, key, clock))
    && (index.Some? ==> WellShaped(index.value) && forall key :: key in keys ==>
        Leads(env, dir.logs, items, index.value, key, clock))
  }

  // ------------------------------------------------------------------ time passes

  lemma {:induction false} ClockAdvances(env: Env, prefix: string, own: string, dir: Dir, index: Option<PackedIndex>,
                                         m: Table, clock: int, later: int, keys: set<string>, blobs: set<bytes>)
    requires Inv(env, prefix, own, dir, index, m, clock, keys, blobs) && clock <= later
    ensures Inv(env, prefix, own, dir, index, m, later, keys, blobs)
  {
    hide SoleLog, HashedPool, OwnItems, Winner, ReadVerified, WellShaped, CollisionFree;
    var items := OwnItems(env, own, dir.logs);
    forall key
      ensures Represents(env, items, dir.pool, m, key, later)
    {
      assert Represents(env, items, dir.pool, m, key, clock);
    }
    if index.Some? {
      forall key | key in keys
        ensures Leads(env, dir.logs, items, index.value, key, later)
      {
        assert Leads(env, dir.logs, items, index.value, key, clock);
      }
    }
  }

  /** A fresh index leads to every winner. */
  lemma {:induction false} FreshLeads(env: Env, own: string, logs: map<string, LogFile>, ix: PackedIndex,
                                      keys: set<string>, clock: int)
    requires SoleLog(env, own, logs) && IsFresh(env, AllItems(env, logs), clock, ix)
    requires CollisionFree(env, keys) && forall x :: x in OwnItems(env, own, logs) ==> x.rec.key in keys
    ensures WellShaped(ix)
    ensures forall key :: key in keys ==> Leads(env, logs, OwnItems(env, own, logs), ix, key, clock)
  {
    hide AllItems, OwnItems, Winner, ReadVerified, WellShaped, SoleLog, Index.Find;
    SoleItems(env, own, logs);
    FreshShape(env, AllItems(env, logs), clock, ix);
    forall key | key in keys
      ensures Leads(env, logs, OwnItems(env, own, logs), ix, key, clock)
    {
      FreshLookup(env, AllItems(env, logs), clock, ix, keys, key);
      WinnerPlaced(env, logs, key);
      var w := Winner(AllItems(env, logs), key);
      if w.Some? && w.value.rec.LiveAt(clock) {
        VerifiedMeansParsed(env, logs, key, LocationOf(w.value), w.value.rec);
      }
    }
  }

  /** The index a call goes through leads, reused or rebuilt. */
  lemma {:induction false} UsableLeads(c: LogCache, ix: PackedIndex, before: Option<PackedIndex>, outdated: bool,
                                       prefix: string, own: string, dir: Dir, m: Table, clock: int, keys: set<string>,
                                       blobs: set<bytes>)
    requires c.own == own && Inv(c.env, prefix, own, dir, before, m, clock, keys, blobs)
    requires c.Usable(ix, before, outdated, dir.logs, clock)
    ensures Inv(c.env, prefix, own, dir, Some(ix), m, clock, keys, blobs)
  {
    hide SoleLog, HashedPool, OwnItems, Winner, ReadVerified, WellShaped, CollisionFree, IsFresh, AllItems, Leads,
      Represents;
    if outdated {
      FreshLeads(c.env, own, dir.logs, ix, keys, clock);
    }
  }

  // ------------------------------------------------------------------ reads

  /** Serving the winner of a key serves the map's value. */
  lemma {:induction false} ServesEntry(env: Env, items: seq<Located>, pool: map<string, PoolFile>, m: Table,
                                       key: string, now: int)
    requires Lawful(env) && Represents(env, items, pool, m, key, now)
    ensures var w := Winner(items, key);
            (if w.None? then None else Serve(env, pool, w.value.rec, now))
            == if Alive(m, key, now) then Some(m[key].value) else None
    ensures var w := Winner(items, key);
            (w.Some? && w.value.rec.LiveAt(now)) <==> Alive(m, key, now)
  {
    hide Winner;
  }

  /** What the plain map holds of a key at `at`, as an outcome. */
  function EntryOutcome(m: Table, key: string, at: int): Outcome {
    if Alive(m, key, at) then Hit(m[key].value) else Missing
  }

  /** A read at `now` through an index that leads at `now` is the map's entry at `now`. */
  lemma {:induction false} OutcomeIsEntry(env: Env, prefix: string, own: string, dir: Dir, ix: PackedIndex, m: Table,
                                          now: int, keys: set<string>, blobs: set<bytes>, key: string)
    requires Lawful(env) && key in keys
    requires Inv(env, prefix, own, dir, Some(ix), m, now, keys, blobs)
    ensures var loc := Index.Find(ix, env.digest(key));
            && OutcomeAt(env, dir.logs, dir.pool, key, loc, now) == EntryOutcome(m, key, now)
            && (LiveAtPlace(env, dir.logs, key, loc, now) <==> Alive(m, key, now))
  {
    hide SoleLog, HashedPool, OwnItems, Winner, ReadVerified, CollisionFree, Lawful, Serve, Represents;
    var items := OwnItems(env, own, dir.logs);
    assert Leads(env, dir.logs, items, ix, key, now);
    assert Represents(env, items, dir.pool, m, key, now);
    ServesEntry(env, items, dir.pool, m, key, now);
    DeadServesNothing(env, dir.pool, items, key, now);
  }

  /** A read at `now` through an index built at `wall` is the map's entry at `wall`. */
  lemma {:induction false} RebuiltIsEntry(env: Env, prefix: string, own: string, dir: Dir, ix: PackedIndex, m: Table,
                                          now: int, wall: int, keys: set<string>, blobs: set<bytes>, key: string)
    requires Lawful(env) && key in keys && now <= wall && IsFresh(env, AllItems(env, dir.logs), wall, ix)
    requires Inv(env, prefix, own, dir, None, m, wall, keys, blobs)
    ensures WellShaped(ix)
    ensures var loc := Index.Find(ix, env.digest(key));
            && OutcomeAt(env, dir.logs, dir.pool, key, loc, now) == EntryOutcome(m, key, wall)
            && (LiveAtPlace(env, dir.logs, key, loc, now) <==> Alive(m, key, wall))
  {
    hide HashedPool, OwnItems, AllItems, Winner, IsFresh, CollisionFree, Lawful, Serve, Represents, SoleLog, Index.Find;
    SoleItems(env, own, dir.logs);
    assert Represents(env, OwnItems(env, own, dir.logs), dir.pool, m, key, wall);
    ServesEntry(env, OwnItems(env, own, dir.logs), dir.pool, m, key, wall);
    FreshReadIsScan(env, dir.logs, dir.pool, now, wall, ix, keys, key);
    FreshLiveIsScan(env, dir.logs, now, wall, ix, keys, key);
  }

  lemma {:induction false} DeadServesNothing(env: Env, pool: map<string, PoolFile>, items: seq<Located>, key: string,
                                             now: int)
    ensures var w := Winner(items, key);
            w.Some? && !w.value.rec.LiveAt(now) ==> Serve(env, pool, w.value.rec, now).None?
  {}

  // ------------------------------------------------------------------ appends

  lemma {:induction false} IntactEndGrows(env: Env, data: bytes, extra: bytes, pos: nat)
    requires IntactEnd(env, data, pos) == |data|
    ensures IntactEnd(env, data + extra, pos) == IntactEnd(env, data + extra, |data|)
    decreases |data| - pos
  {
    hide ParseFrame;
    var here := ParseFrame(env, data, pos);
    if here.Some? {
      ParseLocal(env, data, pos, data + extra, pos, here.value.end - pos);
      IntactEndGrows(env, data, extra, here.value.end);
    }
  }

  lemma {:induction false} IntactIsWalk(env: Env, data: bytes)
    requires Whole(env, data)
    ensures Intact(env, data, 0) == Walk(env, data, 0)
  {
    hide ParseFrame, Intact, Walk, IntactEnd;
    TearReport(env, data);
    WalkSplitsAtTear(env, data, 0);
  }

  /** One more frame is one more record, at the end. */
  lemma {:induction false} AppendedItems(env: Env, own: string, data: bytes, r: Record)
    requires Whole(env, data) && Faithful(env, r)
    ensures var grown := data + Frame(env, r);
            && Whole(env, grown)
            && ScanLog(env, own, grown) == ScanLog(env, own, data) + [Located(r, own, |data|, |grown|)]
  {
    hide ParseFrame, Frame, Faithful, Intact, Walk, IntactEnd;
    var grown := data + Frame(env, r);
    IntactGrows(env, data, Frame(env, r), 0);
    IntactIsWalk(env, data);
    AppendOffset(env, data, r);
    OverFrame(env, grown, |data|);
    WalkAtEnd(env, grown);
    IntactEndGrows(env, data, Frame(env, r), 0);
    IntactEndStep(env, grown, |data|);
  }

  lemma {:induction false} IntactEndStep(env: Env, data: bytes, pos: nat)
    requires ParseFrame(env, data, pos).Some? && ParseFrame(env, data, pos).value.end == |data|
    ensures IntactEnd(env, data, pos) == |data|
  {}

  lemma {:induction false} EmptyIsWhole(env: Env)
    ensures Whole(env, []) && ScanLog(env, "", []) == [] && forall own :: ScanLog(env, own, []) == []
  {}

  /** The own log after an append, as items. */
  lemma {:induction false} AppendedOwn(env: Env, own: string, logs: map<string, LogFile>, r: Record, now: int)
    requires SoleLog(env, own, logs) && Faithful(env, r)
    ensures var logs' := Appended(env, logs, own, r, now);
            var size := SizeOf(logs, own);
            && SoleLog(env, own, logs') && own in logs'
            && OwnItems(env, own, logs')
               == OwnItems(env, own, logs) + [Located(r, own, size, size + FrameLength(env, r))]
            && ParseFrame(env, logs'[own].data, size) == Some(Span(r, size, size + FrameLength(env, r)))
  {
    hide ParseFrame, Frame, Faithful, ScanLog, Whole;
    var data := if own in logs then logs[own].data else [];
    EmptyIsWhole(env);
    AppendedItems(env, own, data, r);
    AppendOffset(env, data, r);
    assert [] + Frame(env, r) == Frame(env, r);
  }

  lemma {:induction false} WinnerSnoc(items: seq<Located>, x: Located, key: string)
    ensures Winner(items + [x], key) == Choose(Winner(items, key), x, key)
  {
    assert (items + [x])[..|items|] == items;
  }

  /** A verified location stays verified when its log grows. */
  lemma {:induction false} VerifiedStays(env: Env, logs: map<string, LogFile>, own: string, r: Record, now: int,
                                         key: string, loc: Location)
    requires Faithful(env, r) && ReadVerified(env, logs, key, loc).Some? && loc.log == own
    ensures ReadVerified(env, Appended(env, logs, own, r, now), key, loc) == ReadVerified(env, logs, key, loc)
  {
    hide ParseFrame, ReadVerified, Frame, Faithful;
    var rec := ReadVerified(env, logs, key, loc).value;
    VerifiedMeansParsed(env, logs, key, loc, rec);
    var data := logs[own].data;
    ParseLocal(env, data, loc.offset, data + Frame(env, r), loc.offset, loc.length);
    VerifiedMeansParsed(env, Appended(env, logs, own, r, now), key, loc, rec);
  }

  lemma {:induction false} VerifiedIsOwn(env: Env, own: string, logs: map<string, LogFile>, key: string, loc: Location)
    requires SoleLog(env, own, logs) && ReadVerified(env, logs, key, loc).Some?
    ensures loc.log == own && own in logs
  {}

  /** An appended record, folded into the index, is the winner of its key and disturbs no other. */
  lemma {:induction false} AppendLeads(env: Env, prefix: string, own: string, dir: Dir, ix: PackedIndex, m: Table,
                                       keys: set<string>, blobs: set<bytes>, r: Record, now: int)
    requires Inv(env, prefix, own, dir, Some(ix), m, now, keys, blobs)
    requires Faithful(env, r) && r.key in keys
    requires forall x :: x in OwnItems(env, own, dir.logs) ==> x.rec.Time() <= r.Time()
    ensures var logs' := Appended(env, dir.logs, own, r, now);
            var ix' := FoldedIn(env, ix, own, r, SizeOf(dir.logs, own), FrameLength(env, r));
            && WellShaped(ix')
            && forall key :: key in keys ==> Leads(env, logs', OwnItems(env, own, logs'), ix', key, now)
  {
    hide ParseFrame, HashedPool, OwnItems, Winner, ReadVerified, Faithful, Appended, Represents, FindFrom, SoleLog,
      EntryAt;
    var logs' := Appended(env, dir.logs, own, r, now);
    var ix' := FoldedIn(env, ix, own, r, SizeOf(dir.logs, own), FrameLength(env, r));
    var items := OwnItems(env, own, dir.logs);
    OverlayKeepsShape(ix, ix');
    AppendedOwn(env, own, dir.logs, r, now);
    var size := SizeOf(dir.logs, own);
    var x := Located(r, own, size, size + FrameLength(env, r));
    forall key | key in keys
      ensures Leads(env, logs', OwnItems(env, own, logs'), ix', key, now)
    {
      WinnerSnoc(items, x, key);
      WinnerHasKey(items, key);
      assert Leads(env, dir.logs, items, ix, key, now);
      if key == r.key {
        if !r.deleted {
          SoleReadable(env, own, logs');
          VerifiedMeansParsed(env, logs', key, Location(own, size, FrameLength(env, r)), r);
        }
      } else {
        assert env.digest(key) != env.digest(r.key);
        FindIgnoresOverlay(ix, ix', env.digest(key), env.digest(r.key));
        var loc := Index.Find(ix, env.digest(key));
        if loc.Some? {
          VerifiedIsOwn(env, own, dir.logs, key, loc.value);
          VerifiedStays(env, dir.logs, own, r, now, key, loc.value);
        }
      }
    }
  }

  lemma {:induction false} SoleReadable(env: Env, own: string, logs: map<string, LogFile>)
    requires SoleLog(env, own, logs) && own in logs
    ensures logs[own].readable
  {}

  lemma {:induction false} FindFromIgnoresOverlay(a: PackedIndex, b: PackedIndex, digest: bytes, i: nat)
    requires WellShaped(a) && WellShaped(b) && a.logs == b.logs && a.entries == b.entries
    ensures FindFrom(a, digest, i) == FindFrom(b, digest, i)
    decreases Size(a.entries) - i
  {
    hide EntryAt;
    if i < Size(a.entries) { FindFromIgnoresOverlay(a, b, digest, i + 1); }
  }

  lemma {:induction false} FindIgnoresOverlay(a: PackedIndex, b: PackedIndex, digest: bytes, other: bytes)
    requires WellShaped(a) && WellShaped(b) && a.logs == b.logs && a.entries == b.entries
    requires digest != other && a.overlay - {other} == b.overlay - {other}
    ensures Index.Find(a, digest) == Index.Find(b, digest)
  {
    hide EntryAt, FindFrom;
    FindFromIgnoresOverlay(a, b, digest, 0);
    assert digest in a.overlay <==> digest in a.overlay - {other};
    assert digest in b.overlay <==> digest in b.overlay - {other};
    if digest in a.overlay {
      assert a.overlay[digest] == (a.overlay - {other})[digest] == (b.overlay - {other})[digest] == b.overlay[digest];
    }
  }

  // ------------------------------------------------------------------ the pool

  lemma {:induction false} PathInjective(env: Env, prefix: string, a: bytes, b: bytes)
    requires PoolPath(env, prefix, a) == PoolPath(env, prefix, b)
    ensures env.sha(a) == env.sha(b)
  {
    var n := |prefix + "/spill/"|;
    var p, q := PoolPath(env, prefix, a), PoolPath(env, prefix, b);
    assert |p| == n + |env.sha(a)| + 4 && |q| == n + |env.sha(b)| + 4;
    assert p[n..|p| - 4] == env.sha(a);
    assert q[n..|q| - 4] == env.sha(b);
  }

  /** Spilling a blob disturbs no other content, and leaves this one under its path. */
  lemma {:induction false} SpillKeepsPool(env: Env, prefix: string, pool: map<string, PoolFile>, blobs: set<bytes>,
                                          blob: bytes, now: int)
    requires HashedPool(env, prefix, pool, blobs) && blob in blobs
    ensures var pool' := Spilled(env, prefix, pool, blob, now);
            && HashedPool(env, prefix, pool', blobs)
            && PoolPath(env, prefix, blob) in pool' && pool'[PoolPath(env, prefix, blob)].data == blob
            && forall rel :: rel in pool ==> rel in pool' && pool'[rel].data == pool[rel].data
  {
    hide PoolPath;
    var rel := PoolPath(env, prefix, blob);
    if rel in pool {
      PathInjective(env, prefix, blob, pool[rel].data);
    }
  }

  /** Contents may only be added: what records held, they still hold. */
  lemma {:induction false} PoolGrows(env: Env, prefix: string, own: string, dir: Dir, pool: map<string, PoolFile>,
                                     index: Option<PackedIndex>, m: Table, clock: int, keys: set<string>,
                                     blobs: set<bytes>)
    requires Inv(env, prefix, own, dir, index, m, clock, keys, blobs) && HashedPool(env, prefix, pool, blobs)
    requires forall rel :: rel in dir.pool ==> rel in pool && pool[rel].data == dir.pool[rel].data
    ensures Inv(env, prefix, own, Dir(dir.logs, pool), index, m, clock, keys, blobs)
  {
    hide SoleLog, HashedPool, OwnItems, Winner, ReadVerified, WellShaped, CollisionFree, Leads;
    var items := OwnItems(env, own, dir.logs);
    forall key
      ensures Represents(env, items, pool, m, key, clock)
    {
      assert Represents(env, items, dir.pool, m, key, clock);
    }
  }

  // ------------------------------------------------------------------ set and delete

  /** The record `set` writes holds the entry the map gets. */
  lemma {:induction false} RecordHolds(env: Env, prefix: string, minFileSize: int, pool: map<string, PoolFile>,
                                       key: string, value: PyObj, expire: Option<int>, now: int)
    requires env.storable(value)
    requires |env.dumps(value)| >= minFileSize ==>
               PoolPath(env, prefix, env.dumps(value)) in pool
               && pool[PoolPath(env, prefix, env.dumps(value))].data == env.dumps(value)
    ensures Holds(env, pool, RecordFor(env, prefix, minFileSize, key, value, expire, now),
                  Slot(value, ExpiryTime(expire, now)))
  {
    assert |PoolPath(env, prefix, env.dumps(value))| >= 4;
    hide PoolPath;
  }

  /** A newest record that holds an entry represents the map with that entry. */
  lemma {:induction false} AppendRepresents(env: Env, items: seq<Located>, x: Located, pool: map<string, PoolFile>,
                                            m: Table, e: Slot, key: string, now: int)
    requires Represents(env, items, pool, m, key, now) && Holds(env, pool, x.rec, e)
    requires forall y :: y in items ==> y.rec.Time() <= x.rec.Time()
    ensures Represents(env, items + [x], pool, m[x.rec.key := e], key, now)
  {
    hide Winner;
    WinnerSnoc(items, x, key);
    WinnerHasKey(items, key);
  }

  lemma {:induction false} TombstoneRepresents(env: Env, items: seq<Located>, x: Located, pool: map<string, PoolFile>,
                                               m: Table, key: string, now: int)
    requires Represents(env, items, pool, m, key, now) && x.rec.deleted
    requires forall y :: y in items ==> y.rec.Time() <= x.rec.Time()
    ensures Represents(env, items + [x], pool, m - {x.rec.key}, key, now)
  {
    hide Winner;
    WinnerSnoc(items, x, key);
    WinnerHasKey(items, key);
  }

  /** The index at hand, if any, with an append folded in. */
  function FoldedOver(env: Env, index: Option<PackedIndex>, own: string, r: Record, offset: nat): Option<PackedIndex> {
    if index.None? then None else Some(FoldedIn(env, index.value, own, r, offset, FrameLength(env, r)))
  }

  /** What an append leaves to show: that the new record represents the new map. */
  lemma {:induction false} AppendKeepsRest(env: Env, prefix: string, own: string, dir: Dir, index: Option<PackedIndex>,
                                           m: Table, keys: set<string>, blobs: set<bytes>, r: Record, now: int,
                                           items': seq<Located>, m': Table)
    requires Inv(env, prefix, own, dir, index, m, now, keys, blobs) && m'.Keys <= keys
    requires Faithful(env, r) && r.key in keys && r.Time() <= now
    requires forall x :: x in OwnItems(env, own, dir.logs) ==> x.rec.Time() <= r.Time()
    requires var size := SizeOf(dir.logs, own);
             items' == OwnItems(env, own, dir.logs) + [Located(r, own, size, size + FrameLength(env, r))]
    requires forall key :: Represents(env, items', dir.pool, m', key, now)
    ensures Inv(env, prefix, own, Dir(Appended(env, dir.logs, own, r, now), dir.pool),
                FoldedOver(env, index, own, r, SizeOf(dir.logs, own)), m', now, keys, blobs)
  {
    hide SoleLog, HashedPool, OwnItems, WellShaped, CollisionFree, Leads, Represents, Appended, FoldedIn, Faithful;
    AppendedOwn(env, own, dir.logs, r, now);
    if index.Some? { AppendLeads(env, prefix, own, dir, index.value, m, keys, blobs, r, now); }
  }

  /** After the append of a `set`, overlay and all. */
  lemma {:induction false} SetAppends(env: Env, prefix: string, own: string, dir: Dir, index: Option<PackedIndex>,
                                      m: Table, keys: set<string>, blobs: set<bytes>, r: Record, e: Slot, now: int)
    requires Inv(env, prefix, own, dir, index, m, now, keys, blobs)
    requires Faithful(env, r) && r.key in keys && r.Time() <= now && Holds(env, dir.pool, r, e)
    requires forall x :: x in OwnItems(env, own, dir.logs) ==> x.rec.Time() <= r.Time()
    ensures Inv(env, prefix, own, Dir(Appended(env, dir.logs, own, r, now), dir.pool),
                FoldedOver(env, index, own, r, SizeOf(dir.logs, own)),
                m[r.key := e], now, keys, blobs)
  {
    var items, size := OwnItems(env, own, dir.logs), SizeOf(dir.logs, own);
    var x, m' := Located(r, own, size, size + FrameLength(env, r)), m[r.key := e];
    hide OwnItems, Represents, Holds, Faithful, SoleLog, HashedPool, WellShaped, CollisionFree, Leads, Appended,
      FoldedIn;
    forall key
      ensures Represents(env, items + [x], dir.pool, m', key, now)
    { AppendRepresents(env, items, x, dir.pool, m, e, key, now); }
    AppendKeepsRest(env, prefix, own, dir, index, m, keys, blobs, r, now, items + [x], m');
  }

  /** After the tombstone of a `delete`, overlay and all. */
  lemma {:induction false} DeleteAppends(env: Env, prefix: string, own: string, dir: Dir, index: Option<PackedIndex>,
                                         m: Table, keys: set<string>, blobs: set<bytes>, r: Record, now: int)
    requires Inv(env, prefix, own, dir, index, m, now, keys, blobs)
    requires Faithful(env, r) && r.key in keys && r.Time() <= now && r.deleted
    requires forall x :: x in OwnItems(env, own, dir.logs) ==> x.rec.Time() <= r.Time()
    ensures Inv(env, prefix, own, Dir(Appended(env, dir.logs, own, r, now), dir.pool),
                FoldedOver(env, index, own, r, SizeOf(dir.logs, own)),
                m - {r.key}, now, keys, blobs)
  {
    var items, size := OwnItems(env, own, dir.logs), SizeOf(dir.logs, own);
    var x, m' := Located(r, own, size, size + FrameLength(env, r)), m - {r.key};
    hide OwnItems, Represents, Holds, Faithful, SoleLog, HashedPool, WellShaped, CollisionFree, Leads, Appended,
      FoldedIn;
    forall key
      ensures Represents(env, items + [x], dir.pool, m', key, now)
    { TombstoneRepresents(env, items, x, dir.pool, m, key, now); }
    AppendKeepsRest(env, prefix, own, dir, index, m, keys, blobs, r, now, items + [x], m');
  }

  // ------------------------------------------------------------------ rewrites

  /** `kept` are the live winners of the items, one a key. */
  ghost predicate IsKept(items: seq<Located>, kept: seq<Located>, now: int) {
    DistinctKeys(kept) && forall x :: x in kept <==> Winner(items, x.rec.key) == Some(x) && x.rec.LiveAt(now)
  }

  /** A log rewritten to the live winners of the old one, and its winner of a key. */
  lemma {:induction false} RewrittenOwn(env: Env, own: string, items: seq<Located>, kept: seq<Located>, now: int,
                                        key: string)
    requires IsKept(items, kept, now) && AllFaithful(env, RecordsIn(kept))
    ensures var data := FrameAll(env, RecordsIn(kept));
            var w := Winner(items, key);
            && Whole(env, data)
            && (forall y :: y in ScanLog(env, own, data) ==> exists x :: x in items && x.rec == y.rec)
            && SameRecord(Winner(ScanLog(env, own, data), key), if w.Some? && w.value.rec.LiveAt(now) then w else None)
  {
    hide FrameAll, ScanLog, AllFaithful, Winner, Get;
    LogRoundTrip(env, RecordsIn(kept));
    RewrittenComeFrom(env, own, kept);
    RewrittenWinner(env, kept, own, key);
    forall y | y in ScanLog(env, own, FrameAll(env, RecordsIn(kept)))
      ensures exists x :: x in items && x.rec == y.rec
    {
      var x :| x in kept && x.rec == y.rec;
      WinnerHasKey(items, x.rec.key);
    }
    var w := Winner(items, key);
    WinnerHasKey(items, key);
    GetKept(kept, key);
    if w.Some? && w.value.rec.LiveAt(now) { GetDistinct(kept, w.value); }
  }

  /** The directory after a rewrite of our log to these records, with a pool that spares what they use. */
  ghost predicate RewrittenTo(env: Env, own: string, dir: Dir, dir': Dir, kept: seq<Located>)
    requires AllFaithful(env, RecordsIn(kept))
  {
    && (if own in dir'.logs then dir'.logs.Keys == {own} && dir'.logs[own].readable
                                 && dir'.logs[own].data == FrameAll(env, RecordsIn(kept))
        else kept == [] && dir'.logs == map[])
    && (forall rel :: rel in dir'.pool ==> rel in dir.pool && dir'.pool[rel] == dir.pool[rel])
    && (forall x :: x in kept && x.rec.Spilled() && x.rec.spill.value in dir.pool ==> x.rec.spill.value in dir'.pool)
  }

  lemma {:induction false} RewriteRepresents(env: Env, own: string, dir: Dir, dir': Dir, kept: seq<Located>, m: Table,
                                             key: string, now: int)
    requires AllFaithful(env, RecordsIn(kept)) && RewrittenTo(env, own, dir, dir', kept)
    requires IsKept(OwnItems(env, own, dir.logs), kept, now)
    requires Represents(env, OwnItems(env, own, dir.logs), dir.pool, m, key, now)
    ensures Represents(env, OwnItems(env, own, dir'.logs), dir'.pool, m, key, now)
    ensures SoleLog(env, own, dir'.logs)
    ensures forall y :: y in OwnItems(env, own, dir'.logs) ==>
            exists x :: x in OwnItems(env, own, dir.logs) && x.rec == y.rec
  {
    hide FrameAll, ScanLog, AllFaithful, Winner, Whole;
    var items := OwnItems(env, own, dir.logs);
    RewrittenOwn(env, own, items, kept, now, key);
    var w := Winner(items, key);
    WinnerHasKey(items, key);
    if own !in dir'.logs {
      assert w.Some? ==> (w.value in kept <==> w.value.rec.LiveAt(now));
      NoItems(key);
      if Alive(m, key, now) { HoldsIsLive(env, dir.pool, w.value.rec, m[key], now); }
    } else if Alive(m, key, now) {
      HoldsIsLive(env, dir.pool, w.value.rec, m[key], now);
      assert w.value in kept;
    }
  }

  lemma {:induction false} NoItems(key: string)
    ensures Winner([], key).None?
  {}

  lemma {:induction false} HoldsIsLive(env: Env, pool: map<string, PoolFile>, r: Record, e: Slot, now: int)
    requires Holds(env, pool, r, e) && (e.expiry.None? || e.expiry.value >= now)
    ensures r.LiveAt(now)
  {}

  /** A rewrite to the live winners keeps the representation, with no index left to lead astray. */
  lemma {:induction false} RewriteKeeps(env: Env, prefix: string, own: string, dir: Dir, index: Option<PackedIndex>,
                                        dir': Dir, kept: seq<Located>, m: Table, now: int, keys: set<string>,
                                        blobs: set<bytes>)
    requires Inv(env, prefix, own, dir, index, m, now, keys, blobs)
    requires AllFaithful(env, RecordsIn(kept)) && RewrittenTo(env, own, dir, dir', kept)
    requires IsKept(OwnItems(env, own, dir.logs), kept, now)
    ensures Inv(env, prefix, own, dir', None, m, now, keys, blobs)
  {
    hide FrameAll, OwnItems, AllFaithful, Represents, IsKept, WellShaped, SoleLog, Leads, CollisionFree;
    forall key
      ensures Represents(env, OwnItems(env, own, dir'.logs), dir'.pool, m, key, now)
    {
      assert Represents(env, OwnItems(env, own, dir.logs), dir.pool, m, key, now);
      RewriteRepresents(env, own, dir, dir', kept, m, key, now);
    }
    RewriteRepresents(env, own, dir, dir', kept, m, "", now);
    forall y | y in OwnItems(env, own, dir'.logs)
      ensures y.rec.Time() <= now && y.rec.key in keys
    {
      var x :| x in OwnItems(env, own, dir.logs) && x.rec == y.rec;
    }
    assert HashedPool(env, prefix, dir'.pool, blobs);
  }

  lemma {:induction false} CompactionKeeps(env: Env, prefix: string, own: string, dir: Dir, index: Option<PackedIndex>,
                                           m: Table, now: int, keys: set<string>, blobs: set<bytes>)
    requires Lawful(env) && Inv(env, prefix, own, dir, index, m, now, keys, blobs) && own in dir.logs
    ensures Inv(env, prefix, own,
                dir.(logs := dir.logs[own := LogFile(CompactLog(env, own, dir.logs[own].data, now), true, now)]),
                None, m, now, keys, blobs)
  {
    hide FrameAll, AllFaithful, Represents, WellShaped, Leads, CollisionFree, Lawful, ScanLog, LiveWinners, Whole,
      HashedPool;
    var items := ScanLog(env, own, dir.logs[own].data);
    var kept := LiveWinners(items, now);
    KeptAreFaithful(env, own, dir.logs[own].data, now);
    LiveWinnersFacts(items, now);
    var dir' := dir.(logs := dir.logs[own := LogFile(CompactLog(env, own, dir.logs[own].data, now), true, now)]);
    RewriteKeeps(env, prefix, own, dir, index, dir', kept, m, now, keys, blobs);
  }

  /** Every live winner is resolvable, so a consolidation keeps them all. */
  lemma {:induction false} ConsolidatedIsKept(env: Env, prefix: string, own: string, dir: Dir,
                                              index: Option<PackedIndex>, m: Table, now: int, keys: set<string>,
                                              blobs: set<bytes>, fold: set<string>)
    requires Inv(env, prefix, own, dir, index, m, now, keys, blobs)
    ensures IsKept(OwnItems(env, own, dir.logs), Resolved(Ours(KeepOf(env, dir.logs, now), own, fold), dir.pool), now)
  {
    hide AllItems, ScanLog, LiveWinners, WellShaped, Leads, CollisionFree, HashedPool, Winner, Ours, Resolved,
      Represents, SoleLog;
    var items := OwnItems(env, own, dir.logs);
    SoleItems(env, own, dir.logs);
    var keep := KeepOf(env, dir.logs, now);
    LiveWinnersFacts(items, now);
    OursMembers(keep, own, fold, dir.pool);
    var kept := Resolved(Ours(keep, own, fold), dir.pool);
    OursDistinct(keep, own, fold, dir.pool);
    forall x | x in keep
      ensures x.log == own && Resolvable(x, dir.pool)
    {
      WinnerHasKey(items, x.rec.key);
      OwnItemsAreOwn(env, own, dir.logs);
      assert Represents(env, items, dir.pool, m, x.rec.key, now);
      LiveIsResolvable(env, items, dir.pool, m, x, now);
    }
  }

  lemma {:induction false} LiveIsResolvable(env: Env, items: seq<Located>, pool: map<string, PoolFile>, m: Table,
                                            x: Located, now: int)
    requires Represents(env, items, pool, m, x.rec.key, now) && Winner(items, x.rec.key) == Some(x) && x.rec.LiveAt(now)
    ensures Resolvable(x, pool)
  {}

  lemma {:induction false} OwnItemsAreOwn(env: Env, own: string, logs: map<string, LogFile>)
    ensures forall x :: x in OwnItems(env, own, logs) ==> x.log == own
  {}

  lemma {:induction false} OursDistinct(keep: seq<Located>, own: string, fold: set<string>, pool: map<string, PoolFile>)
    requires DistinctKeys(keep)
    ensures DistinctKeys(Resolved(Ours(keep, own, fold), pool))
  {
    var p := (x: Located) => x.log == own || x.log in fold;
    FilterDistinct(keep, p);
    SortDistinct(Filter(keep, p));
    FilterDistinct(Ours(keep, own, fold), (x: Located) => Resolvable(x, pool));
  }

  lemma {:induction false} ConsolidationKeeps(env: Env, prefix: string, own: string, dir: Dir,
                                              index: Option<PackedIndex>, m: Table, now: int, keys: set<string>,
                                              blobs: set<bytes>, prune: set<string>, conflicts: set<string>)
    requires Lawful(env) && Inv(env, prefix, own, dir, index, m, now, keys, blobs)
    ensures Inv(env, prefix, own, Consolidated(env, dir, own, prune, conflicts, now), None, m, now, keys, blobs)
  {
    hide FrameAll, AllFaithful, Represents, WellShaped, Leads, CollisionFree, Lawful, ScanLog, KeepOf, Ours, Resolved,
      Whole, HashedPool, OwnItems, IsKept;
    var fold := FoldEligible(prune, conflicts, own);
    var keep := KeepOf(env, dir.logs, now);
    var kept := Resolved(Ours(keep, own, fold), dir.pool);
    ConsolidatedAreFaithful(env, dir.logs, dir.pool, own, fold, now);
    ConsolidatedIsKept(env, prefix, own, dir, index, m, now, keys, blobs, fold);
    var dir' := Consolidated(env, dir, own, prune, conflicts, now);
    assert own !in Unread(dir.logs);
    RewriteKeeps(env, prefix, own, dir, index, dir', kept, m, now, keys, blobs);
  }

  lemma {:induction false} ClearKeeps(env: Env, prefix: string, own: string, dir: Dir, index: Option<PackedIndex>,
                                      m: Table, now: int, keys: set<string>, blobs: set<bytes>)
    requires Inv(env, prefix, own, dir, index, m, now, keys, blobs)
    ensures Inv(env, prefix, own, dir.(logs := dir.logs - {own}), None, map[], now, keys, blobs)
  {
    assert dir.logs - {own} == map[];
    forall key
      ensures Represents(env, [], dir.pool, map[], key, now)
    { NoItems(key); }
  }

  // ------------------------------------------------------------------ counting

  function KeysOf(s: seq<Located>): set<string> {
    set x | x in s :: x.rec.key
  }

  lemma {:induction false} KeysOfSnoc(s: seq<Located>, x: Located)
    ensures KeysOf(s + [x]) == KeysOf(s) + {x.rec.key}
  {
    assert forall y :: y in s + [x] <==> y in s || y == x;
  }

  lemma {:induction false} DistinctCount(s: seq<Located>)
    requires DistinctKeys(s)
    ensures |s| == |KeysOf(s)|
    decreases |s|
  {
    if s != [] {
      var n := |s| - 1;
      var front := s[..n];
      DistinctCount(front);
      assert s == front + [s[n]];
      KeysOfSnoc(front, s[n]);
      assert s[n].rec.key !in KeysOf(front) by {
        forall y | y in front ensures y.rec.key != s[n].rec.key {
          var i :| 0 <= i < n && front[i] == y;
          assert s[i].rec.key != s[n].rec.key;
        }
      }
    }
  }

  /** The live winners' keys are the map's live keys. */
  lemma {:induction false} KeptKeys(env: Env, prefix: string, own: string, dir: Dir, index: Option<PackedIndex>,
                                    m: Table, now: int, keys: set<string>, blobs: set<bytes>, kept: seq<Located>)
    requires Lawful(env) && Inv(env, prefix, own, dir, index, m, now, keys, blobs)
    requires IsKept(OwnItems(env, own, dir.logs), kept, now)
    ensures KeysOf(kept) == AliveKeys(m, now)
    ensures |kept| == |AliveKeys(m, now)|
  {
    hide OwnItems, Represents, WellShaped, Leads, CollisionFree, HashedPool, Winner, SoleLog, Lawful;
    var items := OwnItems(env, own, dir.logs);
    var ks := KeysOf(kept);
    forall k
      ensures k in ks <==> k in AliveKeys(m, now)
    {
      assert Represents(env, items, dir.pool, m, k, now);
      ServesEntry(env, items, dir.pool, m, k, now);
      WinnerHasKey(items, k);
      var w := Winner(items, k);
      if w.Some? && w.value.rec.LiveAt(now) { assert w.value in kept; }
    }
    DistinctCount(kept);
  }
}
