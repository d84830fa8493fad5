/**
 What a cache's index knows of a directory that peers append to: between two looks at the disk it answers for the
 logs as they were at the last look, and for our own writes since.
 */
module SharedReads {
  import opened Bytes
  import opened Options
  import opened Order
  import opened Pickle
  import opened Frames
  import opened ScanFacts
  import opened Fold
  import opened FoldLaws
  import opened Store
  import opened Index
  import opened Reading
  import opened Compaction
  import opened Consolidation
  import opened ConsolidationScope
  import opened LogCaches
  import opened LoneWriter
  import TornTails

  // ------------------------------------------------------------------ logs and what is known of them

  /** Our log is whole, keys are among `keys`, our records are no later than `clock`, and the others' no later than
      `heard`: the writers' clocks are in step. */
  ghost predicate Sane(env: Env, own: string, logs: map<string, LogFile>, keys: set<string>, heard: int, clock: int) {
    && heard <= clock && (own in logs ==> logs[own].readable && Whole(env, logs[own].data))
    && forall x :: x in AllItems(env, logs) ==>
         x.rec.key in keys && x.rec.Time() <= (if x.log == own then clock else heard)
  }

  /** Since they were known the logs only grew, and ours is as known. */
  ghost predicate Extends(own: string, known: map<string, LogFile>, logs: map<string, LogFile>) {
    && (own in known <==> own in logs)
    && (own in logs ==> known[own].data == logs[own].data && known[own].readable == logs[own].readable)
    && forall n :: n in known && n != own ==>
         n in logs && logs[n].readable == known[n].readable && known[n].data <= logs[n].data
  }

  predicate Reads(logs: map<string, LogFile>, n: string) {
    n in logs && logs[n].readable
  }

  /** The readable logs are as known. */
  ghost predicate SameReadable(known: map<string, LogFile>, logs: map<string, LogFile>) {
    forall n :: (Reads(known, n) <==> Reads(logs, n)) && (Reads(logs, n) ==> known[n].data == logs[n].data)
  }

  /** The index leads to the latest record of every key in the logs known. */
  ghost predicate Knowing(env: Env, known: map<string, LogFile>, ix: PackedIndex, keys: set<string>, clock: int) {
    WellShaped(ix) && forall key :: key in keys ==> Leads(env, known, AllItems(env, known), ix, key, clock)
  }

  /** Grown logs of the same sizes are the same. */
  lemma {:induction false} SameSizesSame(own: string, known: map<string, LogFile>, logs: map<string, LogFile>)
    requires Extends(own, known, logs) && Sizes(known) == Sizes(logs)
    ensures SameReadable(known, logs)
  {
    forall n
      ensures Reads(known, n) <==> Reads(logs, n)
      ensures Reads(logs, n) ==> known[n].data == logs[n].data
    {
      assert Reads(known, n) <==> n in Sizes(known);
      assert Reads(logs, n) <==> n in Sizes(logs);
    }
  }

  lemma {:induction false} SameWinner(env: Env, a: map<string, LogFile>, b: map<string, LogFile>, key: string)
    requires forall x :: x in AllItems(env, a) && x.rec.key == key <==> x in AllItems(env, b) && x.rec.key == key
    ensures Winner(AllItems(env, a), key) == Winner(AllItems(env, b), key)
  {
    hide AllItems, Winner, Yields;
    WinnerHasKey(AllItems(env, a), key);
    WinnerHasKey(AllItems(env, b), key);
    WinnerIsNewest(AllItems(env, a), key);
    WinnerIsNewest(AllItems(env, b), key);
    var w := Winner(AllItems(env, a), key);
    if w.Some? {
      LatestExactly(env, a, w.value);
      LatestExactly(env, b, w.value);
    }
  }

  lemma {:induction false} SameLogsSameWinner(env: Env, a: map<string, LogFile>, b: map<string, LogFile>, key: string)
    requires SameReadable(a, b)
    ensures Winner(AllItems(env, a), key) == Winner(AllItems(env, b), key)
  {
    hide AllItems, Winner, ScanLog;
    AllItemsMembers(env, a);
    AllItemsMembers(env, b);
    forall x: Located
      ensures x in AllItems(env, a) <==> x in AllItems(env, b)
    { assert Reads(a, x.log) <==> Reads(b, x.log); }
    SameWinner(env, a, b, key);
  }

  lemma {:induction false} LaterKnowing(env: Env, known: map<string, LogFile>, ix: PackedIndex, keys: set<string>,
                                        clock: int, later: int)
    requires Knowing(env, known, ix, keys, clock) && clock <= later
    ensures Knowing(env, known, ix, keys, later)
  {
    hide AllItems, Winner, ReadVerified, WellShaped, Index.Find;
    forall key | key in keys
      ensures Leads(env, known, AllItems(env, known), ix, key, later)
    { assert Leads(env, known, AllItems(env, known), ix, key, clock); }
  }

  /** A fresh index knows the logs it was built from. */
  lemma {:induction false} FreshKnowing(env: Env, logs: map<string, LogFile>, ix: PackedIndex, keys: set<string>,
                                        clock: int)
    requires IsFresh(env, AllItems(env, logs), clock, ix) && CollisionFree(env, keys)
    requires forall x :: x in AllItems(env, logs) ==> x.rec.key in keys
    ensures Knowing(env, logs, ix, keys, clock)
  {
    hide AllItems, Winner, ReadVerified, WellShaped, Index.Find, IsFresh;
    FreshShape(env, AllItems(env, logs), clock, ix);
    forall key | key in keys
      ensures Leads(env, logs, AllItems(env, logs), ix, key, clock)
    {
      FreshLookup(env, AllItems(env, logs), clock, ix, keys, key);
      WinnerPlaced(env, logs, key);
      var w := Winner(AllItems(env, logs), key);
      if w.Some? && w.value.rec.LiveAt(clock) {
        VerifiedMeansParsed(env, logs, key, LocationOf(w.value), w.value.rec);
      }
    }
  }

  /** A frame found in the logs known is found in the grown ones. */
  lemma {:induction false} VerifiedExtends(env: Env, own: string, known: map<string, LogFile>,
                                           logs: map<string, LogFile>, key: string, loc: Location)
    requires Extends(own, known, logs) && ReadVerified(env, known, key, loc).Some?
    ensures ReadVerified(env, logs, key, loc) == ReadVerified(env, known, key, loc)
  {
    hide ParseFrame, ReadVerified;
    var rec := ReadVerified(env, known, key, loc).value;
    VerifiedMeansParsed(env, known, key, loc, rec);
    var data, grown := known[loc.log].data, logs[loc.log].data;
    assert data + grown[|data|..] == grown;
    TornTails.ParsesStill(env, data, grown[|data|..], loc.offset);
    VerifiedMeansParsed(env, logs, key, loc, rec);
  }

  /** A read through an index of the logs known is never stale in the grown ones, and answers as a full scan when
      nothing has grown. */
  lemma {:induction false} ReadThroughKnown(env: Env, own: string, known: map<string, LogFile>, dir: Dir,
                                            ix: PackedIndex, keys: set<string>, key: string, now: int)
    requires Knowing(env, known, ix, keys, now) && Extends(own, known, dir.logs) && key in keys
    ensures var o := OutcomeAt(env, dir.logs, dir.pool, key, Index.Find(ix, env.digest(key)), now);
            && !o.Stale?
            && (SameReadable(known, dir.logs) ==>
                  o == match ScanAnswer(env, dir.logs, dir.pool, key, now) case None => Missing case Some(v) => Hit(v))
  {
    hide AllItems, Winner, ReadVerified, WellShaped, Index.Find, Serve, Extends, SameReadable;
    assert Leads(env, known, AllItems(env, known), ix, key, now);
    var loc := Index.Find(ix, env.digest(key));
    if loc.Some? { VerifiedExtends(env, own, known, dir.logs, key, loc.value); }
    if SameReadable(known, dir.logs) {
      SameLogsSameWinner(env, known, dir.logs, key);
      DeadServesNothing(env, dir.pool, AllItems(env, known), key, now);
    }
  }

  // ------------------------------------------------------------------ an append of ours

  /** The records after an append of ours to a whole log: those before, and the new one. */
  lemma {:induction false} AppendMembers(env: Env, own: string, logs: map<string, LogFile>, r: Record, now: int)
    requires Faithful(env, r) && (own in logs ==> logs[own].readable && Whole(env, logs[own].data))
    ensures var after := Appended(env, logs, own, r, now);
            var x := Located(r, own, SizeOf(logs, own), SizeOf(logs, own) + FrameLength(env, r));
            && after[own].readable && Whole(env, after[own].data)
            && (forall y :: y in AllItems(env, after) <==> y in AllItems(env, logs) || y == x)
            && (forall y :: y in AllItems(env, logs) && y.log == own ==> y.start < SizeOf(logs, own))
            && ParseFrame(env, after[own].data, SizeOf(logs, own)) == Some(Span(r, x.start, x.end))
  {
    hide Faithful, ScanLog, Whole, AllItems, ParseFrame, Frame;
    var after := Appended(env, logs, own, r, now);
    var data := if own in logs then logs[own].data else [];
    EmptyIsWhole(env);
    AppendedItems(env, own, data, r);
    AppendOffset(env, data, r);
    assert [] + Frame(env, r) == Frame(env, r);
    AllItemsMembers(env, logs);
    AllItemsMembers(env, after);
    ScanLogMembers(env, own, data);
  }

  /** The new record is its key's latest, and the other keys' latest are the same. */
  lemma {:induction false} AppendWinner(env: Env, own: string, logs: map<string, LogFile>, r: Record, now: int,
                                        keys: set<string>, heard: int, clock: int, key: string)
    requires Faithful(env, r) && Sane(env, own, logs, keys, heard, clock) && heard < r.Time() && clock <= r.Time()
    ensures var x := Located(r, own, SizeOf(logs, own), SizeOf(logs, own) + FrameLength(env, r));
            Winner(AllItems(env, Appended(env, logs, own, r, now)), key)
            == if key == r.key then Some(x) else Winner(AllItems(env, logs), key)
  {
    hide Faithful, AllItems, Winner, Whole, ParseFrame, Frame, NameBefore, Appended;
    AppendMembers(env, own, logs, r, now);
    var after := Appended(env, logs, own, r, now);
    if key == r.key {
      var x := Located(r, own, SizeOf(logs, own), SizeOf(logs, own) + FrameLength(env, r));
      forall y | y in AllItems(env, after) && y.rec.key == x.rec.key
        ensures Yields(y, x)
      {}
      LatestExactly(env, after, x);
    } else {
      SameWinner(env, after, logs, key);
    }
  }

  /** Our append, folded into the index, is known. */
  lemma {:induction false} AppendKnowing(env: Env, own: string, known: map<string, LogFile>, ix: PackedIndex, r: Record,
                                         now: int, keys: set<string>, heard: int, clock: int, at: int)
    requires Faithful(env, r) && Sane(env, own, known, keys, heard, clock) && heard < r.Time() && clock <= r.Time()
    requires CollisionFree(env, keys) && r.key in keys && Knowing(env, known, ix, keys, at)
    ensures Knowing(env, Appended(env, known, own, r, now),
                    FoldedIn(env, ix, own, r, SizeOf(known, own), FrameLength(env, r)), keys, at)
  {
    hide Faithful, AllItems, Winner, Whole, ParseFrame, Frame, Appended, ReadVerified, EntryAt, FindFrom, Sane;
    var after := Appended(env, known, own, r, now);
    var ix' := FoldedIn(env, ix, own, r, SizeOf(known, own), FrameLength(env, r));
    OverlayKeepsShape(ix, ix');
    SaneOwn(env, own, known, keys, heard, clock);
    AppendMembers(env, own, known, r, now);
    forall key | key in keys
      ensures Leads(env, after, AllItems(env, after), ix', key, at)
    {
      AppendWinner(env, own, known, r, now, keys, heard, clock, key);
      assert Leads(env, known, AllItems(env, known), ix, key, at);
      if key == r.key {
        if !r.deleted {
          VerifiedMeansParsed(env, after, key, Location(own, SizeOf(known, own), FrameLength(env, r)), r);
        }
      } else {
        assert env.digest(key) != env.digest(r.key);
        FindIgnoresOverlay(ix, ix', env.digest(key), env.digest(r.key));
        var loc := Index.Find(ix, env.digest(key));
        if loc.Some? { VerifiedInAppended(env, own, known, r, now, key, loc.value); }
      }
    }
  }

  lemma {:induction false} SaneOwn(env: Env, own: string, logs: map<string, LogFile>, keys: set<string>, heard: int,
                                   clock: int)
    requires Sane(env, own, logs, keys, heard, clock)
    ensures own in logs ==> logs[own].readable && Whole(env, logs[own].data)
  {}

  lemma {:induction false} VerifiedInAppended(env: Env, own: string, logs: map<string, LogFile>, r: Record, now: int,
                                              key: string, loc: Location)
    requires Faithful(env, r) && ReadVerified(env, logs, key, loc).Some?
    ensures ReadVerified(env, Appended(env, logs, own, r, now), key, loc) == ReadVerified(env, logs, key, loc)
  {
    if loc.log == own { VerifiedStays(env, logs, own, r, now, key, loc); }
  }
}
