/** Point reads: a recorded location is re-read and verified before its record is trusted. */
module Reading {
  import opened Bytes
  import opened Options
  import opened Pickle
  import opened Frames
  import opened ScanFacts
  import opened Fold
  import opened Store
  import opened Index
  import Order

  function Min(a: nat, b: nat): nat { if a < b then a else b }

  /** `f.seek(offset); f.read(length)`: short or empty past the end of the file. */
  function ReadAt(data: bytes, offset: nat, length: nat): bytes {
    data[Min(offset, |data|)..Min(offset + length, |data|)]
  }

  /** `_read_verified`: the record at a recorded location, or `None` for a stale one: the log is gone
      or unreadable, the frame does not parse, spans another length, or carries another key. */
  function ReadVerified(env: Env, logs: map<string, LogFile>, key: string, loc: Location): Option<Record> {
    if loc.log !in logs || !logs[loc.log].readable then None
    else
      var p := ParseFrame(env, ReadAt(logs[loc.log].data, loc.offset, loc.length), 0);
      if p.None? || p.value.end != loc.length || p.value.rec.key != key then None else Some(p.value.rec)
  }

  lemma {:induction false} ReadWhole(data: bytes, offset: nat, length: nat)
    ensures |ReadAt(data, offset, length)| <= length
    ensures |ReadAt(data, offset, length)| == length > 0 || offset + length <= |data| ==>
              offset + length <= |data| && ReadAt(data, offset, length) == data[offset..offset + length]
  {}

  lemma {:induction false} ReadThenParsed(env: Env, data: bytes, offset: nat, length: nat)
    ensures var part := ParseFrame(env, ReadAt(data, offset, length), 0);
            part.Some? && part.value.end == length ==>
              ParseFrame(env, data, offset) == Some(Span(part.value.rec, offset, offset + length))
  {
    hide ParseFrame, ReadAt;
    var part := ReadAt(data, offset, length);
    ReadWhole(data, offset, length);
    if ParseFrame(env, part, 0).Some? && ParseFrame(env, part, 0).value.end == length {
      ParseLocal(env, part, 0, data, offset, length);
    }
  }

  lemma {:induction false} ParsedThenRead(env: Env, data: bytes, offset: nat, length: nat)
    ensures var whole := ParseFrame(env, data, offset);
            whole.Some? && whole.value.end == offset + length ==>
              ParseFrame(env, ReadAt(data, offset, length), 0) == Some(Span(whole.value.rec, 0, length))
  {
    hide ParseFrame, ReadAt;
    ReadWhole(data, offset, length);
    if ParseFrame(env, data, offset).Some? && ParseFrame(env, data, offset).value.end == offset + length {
      ParseSlice(env, data, offset);
    }
  }

  /** A verified record is what parses at the recorded location of the current bytes, and nothing
      shorter, longer or of another key. */
  lemma {:induction false} VerifiedMeansParsed(env: Env, logs: map<string, LogFile>, key: string, loc: Location,
                                               r: Record)
    ensures ReadVerified(env, logs, key, loc) == Some(r) <==>
              && loc.log in logs && logs[loc.log].readable && r.key == key
              && ParseFrame(env, logs[loc.log].data, loc.offset) == Some(Span(r, loc.offset, loc.offset + loc.length))
  {
    hide ParseFrame, ReadAt;
    if loc.log in logs {
      ReadThenParsed(env, logs[loc.log].data, loc.offset, loc.length);
      ParsedThenRead(env, logs[loc.log].data, loc.offset, loc.length);
    }
  }

  /** A verified live record at the recorded location. */
  predicate LiveAtPlace(env: Env, logs: map<string, LogFile>, key: string, loc: Option<Location>, now: int) {
    && loc.Some? && ReadVerified(env, logs, key, loc.value).Some?
    && ReadVerified(env, logs, key, loc.value).value.LiveAt(now)
  }

  /** What a full scan answers for a key: the value of its latest-wins record. */
  function ScanAnswer(env: Env, logs: map<string, LogFile>, pool: map<string, PoolFile>, key: string, now: int)
    : Option<PyObj>
  {
    var w := Winner(AllItems(env, logs), key);
    if w.None? then None else Serve(env, pool, w.value.rec, now)
  }

  /** What one attempt of `get` finds through an index. */
  datatype Outcome = Missing | Stale | Hit(v: PyObj)

  function OutcomeAt(env: Env, logs: map<string, LogFile>, pool: map<string, PoolFile>, key: string,
                     loc: Option<Location>, now: int): Outcome
  {
    if loc.None? then Missing
    else
      var rec := ReadVerified(env, logs, key, loc.value);
      if rec.None? then Stale
      else match Serve(env, pool, rec.value, now)
        case None => Missing
        case Some(v) => Hit(v)
  }

  /** The answer is the value of a record that parses at some place of the current bytes, carries
      exactly this key, and is neither tombstoned nor expired. */
  ghost predicate ServedFrom(env: Env, logs: map<string, LogFile>, pool: map<string, PoolFile>, key: string, now: int,
                             v: PyObj, loc: Location)
  {
    && loc.log in logs && logs[loc.log].readable
    && ParseFrame(env, logs[loc.log].data, loc.offset).Some?
    && var s := ParseFrame(env, logs[loc.log].data, loc.offset).value;
       && s.end == loc.offset + loc.length && s.rec.key == key && s.rec.LiveAt(now)
       && Serve(env, pool, s.rec, now) == Some(v)
  }

  lemma {:induction false} HitIsServed(env: Env, logs: map<string, LogFile>, pool: map<string, PoolFile>, key: string,
                                       loc: Option<Location>, now: int)
    ensures var o := OutcomeAt(env, logs, pool, key, loc, now);
            o.Hit? ==> loc.Some? && ServedFrom(env, logs, pool, key, now, o.v, loc.value)
  {
    hide ParseFrame, ReadVerified;
    if loc.Some? && ReadVerified(env, logs, key, loc.value).Some? {
      VerifiedMeansParsed(env, logs, key, loc.value, ReadVerified(env, logs, key, loc.value).value);
    }
  }

  /** Through an index built at `wall`, and without digest collisions, a read is never stale and answers
      exactly as a full scan of the logs at `wall` does, also when the read's own clock reading is older. */
  lemma {:induction false} FreshReadIsScan(env: Env, logs: map<string, LogFile>, pool: map<string, PoolFile>, now: int,
                                           wall: int, ix: PackedIndex, keys: set<string>, key: string)
    requires IsFresh(env, AllItems(env, logs), wall, ix) && now <= wall
    requires CollisionFree(env, keys) && key in keys && forall x :: x in AllItems(env, logs) ==> x.rec.key in keys
    ensures var o := OutcomeAt(env, logs, pool, key, Find(ix, env.digest(key)), now);
            o == match ScanAnswer(env, logs, pool, key, wall)
                 case None => Missing
                 case Some(v) => Hit(v)
  {
    hide ParseFrame, ReadVerified, Gather, Winner, Find, IsFresh, WellShaped;
    FreshShape(env, AllItems(env, logs), wall, ix);
    var items := AllItems(env, logs);
    FreshLookup(env, items, wall, ix, keys, key);
    var w := Winner(items, key);
    if w.Some? && w.value.rec.LiveAt(wall) {
      WinnerPlaced(env, logs, key);
      VerifiedMeansParsed(env, logs, key, LocationOf(w.value), w.value.rec);
    }
  }

  /** Through such an index the frame found is live exactly when the latest record of the key is live at `wall`. */
  lemma {:induction false} FreshLiveIsScan(env: Env, logs: map<string, LogFile>, now: int, wall: int, ix: PackedIndex,
                                           keys: set<string>, key: string)
    requires IsFresh(env, AllItems(env, logs), wall, ix) && now <= wall
    requires CollisionFree(env, keys) && key in keys && forall x :: x in AllItems(env, logs) ==> x.rec.key in keys
    ensures WellShaped(ix)
    ensures var w := Winner(AllItems(env, logs), key);
            LiveAtPlace(env, logs, key, Find(ix, env.digest(key)), now) <==> w.Some? && w.value.rec.LiveAt(wall)
  {
    hide ParseFrame, ReadVerified, Gather, Winner, Find, IsFresh, WellShaped;
    FreshShape(env, AllItems(env, logs), wall, ix);
    FreshLookup(env, AllItems(env, logs), wall, ix, keys, key);
    var w := Winner(AllItems(env, logs), key);
    if w.Some? && w.value.rec.LiveAt(wall) {
      WinnerPlaced(env, logs, key);
      VerifiedMeansParsed(env, logs, key, LocationOf(w.value), w.value.rec);
    }
  }

  lemma {:induction false} FreshShape(env: Env, items: seq<Located>, now: int, ix: PackedIndex)
    requires IsFresh(env, items, now, ix)
    ensures WellShaped(ix) && InOrder(items)
  {
    hide EntryAt;
  }

  lemma {:induction false} WinnerPlaced(env: Env, logs: map<string, LogFile>, key: string)
    ensures var w := Winner(AllItems(env, logs), key);
            w.Some? ==> w.value.rec.key == key && Placed(env, logs, w.value) && w.value.start <= w.value.end
  {
    hide ParseFrame, Gather;
    GatherMembers(env, logs, Order.SortedNames(logs.Keys));
    var w := Winner(AllItems(env, logs), key);
    if w.Some? { assert w.value in AllItems(env, logs); PlacedOrdered(env, logs, w.value); }
  }

  lemma {:induction false} PlacedOrdered(env: Env, logs: map<string, LogFile>, x: Located)
    requires Placed(env, logs, x)
    ensures x.start <= x.end
  {}
}
