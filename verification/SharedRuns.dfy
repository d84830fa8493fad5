/** Runs of one cache over a directory that peers append to: what a `get` sees, and when. */
module SharedRuns {
  import opened Bytes
  import opened Options
  import opened Order
  import opened Pickle
  import opened Frames
  import opened ScanFacts
  import opened Fold
  import opened Store
  import opened Index
  import opened Reading
  import opened Compaction
  import opened Consolidation
  import opened ConsolidationScope
  import opened LogCaches
  import opened LoneWriter
  import opened LoneWriterRuns
  import opened SharedReads

  // ------------------------------------------------------------------ events

  /** A peer appends to its log, or starts it, and spills come and go, at a wall and a monotonic reading; or the
      cache is called. */
  datatype Event =
    | Peer(n: string, extra: bytes, mtime: int, pool: map<string, PoolFile>, wall: int, mono: int)
    | Own(cmd: Command)
  {
    function Wall(): int {
      if Peer? then wall else cmd.End()
    }

    function Mono(): int {
      match this
      case Peer(_, _, _, _, _, m) => m
      case Own(cmd) => if cmd.Indexes() then cmd.mono else 0
    }
  }

  function WallAfter(start: int, events: seq<Event>): int {
    if events == [] then start else events[|events| - 1].Wall()
  }

  /** The wall reading of the last append of a peer. */
  function HeardAfter(start: int, events: seq<Event>): int {
    if events == [] then start
    else if events[|events| - 1].Peer? then events[|events| - 1].wall
    else HeardAfter(start, events[..|events| - 1])
  }

  function MonoAfter(start: int, events: seq<Event>): int {
    if events == [] then start else events[|events| - 1].Mono()
  }

  /** The monotonic reading of the last append of a peer, or of the last call that could not index the logs. */
  function ChangedAt(events: seq<Event>, blocked: seq<bool>): Option<int>
    requires |blocked| == |events|
  {
    if events == [] then None
    else if events[|events| - 1].Peer? || blocked[|events| - 1] then Some(events[|events| - 1].Mono())
    else ChangedAt(events[..|events| - 1], blocked[..|events| - 1])
  }

  /** One event is in order: the clocks do not run backwards and are in step, peers append to readable logs of
      theirs, our writes come after what was heard, and the keys are among `keys`. */
  ghost predicate Orderly(env: Env, own: string, keys: set<string>, before: Dir, e: Event, after: Dir, heard: int,
                          wall: int, mono: int) {
    match e
    case Peer(n, extra, _, _, w, m) =>
      && n != own && (n in before.logs ==> before.logs[n].readable) && wall <= w && mono <= m
      && forall x :: x in AllItems(env, after.logs) ==> x.rec.key in keys && (x.log != own ==> x.rec.Time() <= w)
    case Own(cmd) =>
      && cmd.Indexes() && wall <= cmd.now <= cmd.End() && mono <= cmd.mono && cmd.key in keys
      && (!cmd.GetCmd? ==> heard < cmd.now)
  }

  /** Every event is, along the directories in between, from a start in order. */
  ghost predicate AllOrderly(env: Env, own: string, keys: set<string>, events: seq<Event>, dirs: seq<Dir>, wall: int,
                             mono: int) {
    && |dirs| == |events| + 1 && CollisionFree(env, keys) && Sane(env, own, dirs[0].logs, keys, wall, wall)
    && forall i :: 0 <= i < |events| ==>
         Orderly(env, own, keys, dirs[i], events[i], dirs[i + 1], HeardAfter(wall, events[..i]),
                 WallAfter(wall, events[..i]), MonoAfter(mono, events[..i]))
  }

  // ------------------------------------------------------------------ what the index knows

  /** The index, if there is one, knows `known`, which the logs extend; and it was checked after the last change only
      if nothing has grown since. */
  ghost predicate Sound(c: LogCache, index: Option<PackedIndex>, s: Moment, known: map<string, LogFile>,
                        keys: set<string>, changed: Option<int>, heard: int, clock: int, mono: int) {
    && Lawful(c.env) && CollisionFree(c.env, keys) && Sane(c.env, c.own, s.dir.logs, keys, heard, clock)
    && s.known.indexed == index.Some?
    && (index.Some? ==>
          && Sane(c.env, c.own, known, keys, heard, clock) && Extends(c.own, known, s.dir.logs)
          && s.known.sizes == Some(Sizes(known)) && s.known.checked.Some? && s.known.checked.value <= mono
          && Knowing(c.env, known, index.value, keys, clock)
          && (changed.None? || s.known.checked.value > changed.value ==> SameReadable(known, s.dir.logs)))
  }

  lemma {:induction false} SaneLater(env: Env, own: string, logs: map<string, LogFile>, keys: set<string>, heard: int,
                                     clock: int, later: int)
    requires Sane(env, own, logs, keys, heard, clock) && clock <= later
    ensures Sane(env, own, logs, keys, heard, later)
  {
    hide AllItems, Whole;
  }

  lemma {:induction false} Same(logs: map<string, LogFile>, own: string)
    ensures SameReadable(logs, logs) && Extends(own, logs, logs)
  {}

  /** What the index knows after a look at the disk. */
  function KnownAfter(c: LogCache, s: Moment, known: map<string, LogFile>, mono: int): map<string, LogFile> {
    if c.Outdated(s, mono) then s.dir.logs else known
  }

  /** After a look at the disk the index knows the logs as they are, if the last change is a TTL ago. */
  lemma {:induction false} Look(c: LogCache, index: Option<PackedIndex>, s: Moment, known: map<string, LogFile>,
                                keys: set<string>, changed: Option<int>, heard: int, clock: int, mono0: int, wall: int,
                                mono: int, ix: PackedIndex)
    requires Sound(c, index, s, known, keys, changed, heard, clock, mono0) && clock <= wall && mono0 <= mono
    requires !c.Blocked(s, wall, mono) && c.Usable(ix, index, c.Outdated(s, mono), s.dir.logs, wall)
    ensures var k := KnownAfter(c, s, known, mono);
            && Sound(c, Some(ix), s.(known := c.Checking(s, wall, mono)), k, keys, changed, heard, wall, mono)
            && (changed.None? || mono >= changed.value + c.indexTtl ==> SameReadable(k, s.dir.logs))
  {
    hide Lawful, Sane, Knowing, IsFresh, AllItems, Indexable, SameReadable, Extends, CollisionFree, Sizes;
    SaneLater(c.env, c.own, s.dir.logs, keys, heard, clock, wall);
    if c.Outdated(s, mono) {
      Same(s.dir.logs, c.own);
      SaneKeys(c.env, c.own, s.dir.logs, keys, heard, clock);
      FreshKnowing(c.env, s.dir.logs, ix, keys, wall);
    } else {
      SaneLater(c.env, c.own, known, keys, heard, clock, wall);
      LaterKnowing(c.env, known, ix, keys, clock, wall);
      if c.Rechecks(s.known, mono) { SameSizesSame(c.own, known, s.dir.logs); }
    }
  }

  lemma {:induction false} SaneKeys(env: Env, own: string, logs: map<string, LogFile>, keys: set<string>, heard: int,
                                    clock: int)
    requires Sane(env, own, logs, keys, heard, clock)
    ensures forall x :: x in AllItems(env, logs) ==> x.rec.key in keys
  {
    hide AllItems, Whole;
  }

  /** A call that could not index the logs counts as a change: the check time has moved all the same. */
  lemma {:induction false} LookBlocked(c: LogCache, index: Option<PackedIndex>, s: Moment, known: map<string, LogFile>,
                                       keys: set<string>, changed: Option<int>, heard: int, clock: int, mono0: int,
                                       wall: int, mono: int)
    requires Sound(c, index, s, known, keys, changed, heard, clock, mono0) && clock <= wall && mono0 <= mono
    requires c.Blocked(s, wall, mono)
    ensures Sound(c, index, s.(known := c.Checking(s, wall, mono)), known, keys, Some(mono), heard, wall, mono)
  {
    hide Lawful, Sane, Knowing, AllItems, Indexable, SameReadable, Extends, CollisionFree, Sizes;
    SaneLater(c.env, c.own, s.dir.logs, keys, heard, clock, wall);
    if index.Some? {
      SaneLater(c.env, c.own, known, keys, heard, clock, wall);
      LaterKnowing(c.env, known, index.value, keys, clock, wall);
    }
  }

  // ------------------------------------------------------------------ a peer's append

  lemma {:induction false} ExtendsOn(own: string, known: map<string, LogFile>, logs: map<string, LogFile>, n: string,
                                     extra: bytes, mtime: int)
    requires Extends(own, known, logs) && n != own && (n in logs ==> logs[n].readable)
    ensures Extends(own, known, GrownBy(logs, n, extra, mtime))
  {}

  lemma {:induction false} PeerSane(env: Env, own: string, logs: map<string, LogFile>, keys: set<string>, heard: int,
                                    clock: int, n: string, extra: bytes, mtime: int, wall: int)
    requires Sane(env, own, logs, keys, heard, clock) && n != own && clock <= wall
    requires forall x :: x in AllItems(env, GrownBy(logs, n, extra, mtime)) ==>
               x.rec.key in keys && (x.log != own ==> x.rec.Time() <= wall)
    ensures Sane(env, own, GrownBy(logs, n, extra, mtime), keys, wall, wall)
  {
    hide AllItems, Whole, ScanLog;
    AllItemsMembers(env, logs);
    AllItemsMembers(env, GrownBy(logs, n, extra, mtime));
  }

  lemma {:induction false} SaneHeard(env: Env, own: string, logs: map<string, LogFile>, keys: set<string>, heard: int,
                                     clock: int, wall: int)
    requires Sane(env, own, logs, keys, heard, clock) && clock <= wall
    ensures Sane(env, own, logs, keys, wall, wall)
  {
    hide AllItems, Whole;
  }

  lemma {:induction false} PeerKeeps(c: LogCache, index: Option<PackedIndex>, s: Moment, known: map<string, LogFile>,
                                     keys: set<string>, changed: Option<int>, heard: int, clock: int, mono: int,
                                     e: Event)
    requires Sound(c, index, s, known, keys, changed, heard, clock, mono) && e.Peer?
    requires Orderly(c.env, c.own, keys, s.dir, e, Dir(GrownBy(s.dir.logs, e.n, e.extra, e.mtime), e.pool), heard,
                     clock, mono)
    ensures Sound(c, index, Moment(Dir(GrownBy(s.dir.logs, e.n, e.extra, e.mtime), e.pool), s.known), known, keys,
                  Some(e.mono), e.wall, e.wall, e.mono)
  {
    hide Lawful, Sane, Knowing, AllItems, SameReadable, Extends, CollisionFree, Sizes, GrownBy;
    PeerSane(c.env, c.own, s.dir.logs, keys, heard, clock, e.n, e.extra, e.mtime, e.wall);
    if index.Some? {
      ExtendsOn(c.own, known, s.dir.logs, e.n, e.extra, e.mtime);
      SaneHeard(c.env, c.own, known, keys, heard, clock, e.wall);
      LaterKnowing(c.env, known, index.value, keys, clock, e.wall);
    }
  }

  // ------------------------------------------------------------------ writes of ours

  lemma {:induction false} AppendSane(env: Env, own: string, logs: map<string, LogFile>, r: Record, later: int,
                                      keys: set<string>, heard: int, clock: int)
    requires Faithful(env, r) && Sane(env, own, logs, keys, heard, clock) && r.key in keys
    requires clock <= r.Time() <= later
    ensures Sane(env, own, Appended(env, logs, own, r, later), keys, heard, later)
  {
    hide Faithful, AllItems, Whole, ParseFrame, Appended;
    AppendMembers(env, own, logs, r, later);
  }

  lemma {:induction false} AppendExtends(env: Env, own: string, known: map<string, LogFile>, logs: map<string, LogFile>,
                                         r: Record, later: int)
    requires |BlobOf(env, r)| < U32 && Extends(own, known, logs)
    ensures Extends(own, Appended(env, known, own, r, later), Appended(env, logs, own, r, later))
    ensures SizeOf(known, own) == SizeOf(logs, own)
    ensures SameReadable(known, logs) ==>
              SameReadable(Appended(env, known, own, r, later), Appended(env, logs, own, r, later))
  {
    hide Frame;
    if SameReadable(known, logs) {
      assert forall n :: Reads(known, n) <==> Reads(logs, n);
    }
  }

  lemma {:induction false} AppendSizes(env: Env, own: string, logs: map<string, LogFile>, r: Record, later: int)
    requires |BlobOf(env, r)| < U32 && (own in logs ==> logs[own].readable)
    ensures var after := Appended(env, logs, own, r, later);
            Sizes(after) == Sizes(logs)[own := SizeOf(after, own)]
  {
    hide Frame;
  }

  /** A record of ours appended and folded in keeps the index sound. */
  lemma {:induction false} AppendKeeps(c: LogCache, ix: PackedIndex, s: Moment, known: map<string, LogFile>,
                                       keys: set<string>, changed: Option<int>, heard: int, clock: int, later: int,
                                       mono: int, r: Record, pool: map<string, PoolFile>)
    requires Sound(c, Some(ix), s, known, keys, changed, heard, later, mono)
    requires Sane(c.env, c.own, s.dir.logs, keys, heard, clock) && Sane(c.env, c.own, known, keys, heard, clock)
    requires Faithful(c.env, r) && r.key in keys && heard < r.Time() && clock <= r.Time() <= later
    ensures var logs := Appended(c.env, s.dir.logs, c.own, r, later);
            Sound(c, Some(FoldedIn(c.env, ix, c.own, r, SizeOf(s.dir.logs, c.own), FrameLength(c.env, r))),
                  Moment(Dir(logs, pool), s.known.(sizes := Some(s.known.Sig()[c.own := SizeOf(logs, c.own)]))),
                  Appended(c.env, known, c.own, r, later), keys, changed, heard, later, mono)
  {
    hide Lawful, Sane, Knowing, AllItems, SameReadable, Extends, CollisionFree, Sizes, Appended, FoldedIn, FrameLength,
      Faithful;
    AppendSane(c.env, c.own, s.dir.logs, r, later, keys, heard, clock);
    AppendSane(c.env, c.own, known, r, later, keys, heard, clock);
    AppendExtends(c.env, c.own, known, s.dir.logs, r, later);
    SaneOwn(c.env, c.own, known, keys, heard, clock);
    AppendSizes(c.env, c.own, known, r, later);
    AppendSize(c.env, c.own, known, s.dir.logs, r, later);
    AppendKnowing(c.env, c.own, known, ix, r, later, keys, heard, clock, later);
  }

  lemma {:induction false} AppendSize(env: Env, own: string, known: map<string, LogFile>, logs: map<string, LogFile>,
                                      r: Record, later: int)
    requires |BlobOf(env, r)| < U32 && Extends(own, known, logs)
    ensures SizeOf(Appended(env, known, own, r, later), own) == SizeOf(Appended(env, logs, own, r, later), own)
  {
    hide Frame;
  }

  // ------------------------------------------------------------------ rewrites of ours

  /** Our log rewritten to some of the records there were, and some others' logs gone. */
  lemma {:induction false} RewriteSane(env: Env, own: string, logs: map<string, LogFile>, after: map<string, LogFile>,
                                       out: seq<Located>, keys: set<string>, heard: int, clock: int)
    requires Sane(env, own, logs, keys, heard, clock) && AllFaithful(env, RecordsIn(out))
    requires forall x :: x in out ==> x in AllItems(env, logs)
    requires forall n :: n in after && n != own ==> n in logs && after[n] == logs[n]
    requires own in after ==> after[own].readable && after[own].data == FrameAll(env, RecordsIn(out))
    ensures Sane(env, own, after, keys, heard, clock)
  {
    hide AllItems, ScanLog, FrameAll, AllFaithful;
    LogRoundTrip(env, RecordsIn(out));
    RewrittenComeFrom(env, own, out);
    AllItemsMembers(env, logs);
    AllItemsMembers(env, after);
    forall y | y in AllItems(env, after)
      ensures y.rec.key in keys && y.rec.Time() <= (if y.log == own then clock else heard)
    {
      if y.log == own {
        assert y in ScanLog(env, own, FrameAll(env, RecordsIn(out)));
        var x :| x in out && x.rec == y.rec;
      } else {
        assert y in AllItems(env, logs);
      }
    }
  }

  lemma {:induction false} CompactSane(env: Env, own: string, logs: map<string, LogFile>, now: int, mtime: int,
                                       keys: set<string>, heard: int, clock: int)
    requires Lawful(env) && Sane(env, own, logs, keys, heard, clock) && own in logs
    ensures Sane(env, own, logs[own := LogFile(CompactLog(env, own, logs[own].data, now), true, mtime)], keys, heard,
                 clock)
  {
    hide Lawful, Sane, AllItems, ScanLog, FrameAll, AllFaithful, LiveWinners, Winner;
    var items := ScanLog(env, own, logs[own].data);
    var out := LiveWinners(items, now);
    KeptAreFaithful(env, own, logs[own].data, now);
    LiveWinnersFacts(items, now);
    SaneOwn(env, own, logs, keys, heard, clock);
    AllItemsMembers(env, logs);
    ScanLogMembers(env, own, logs[own].data);
    forall x | x in out
      ensures x in AllItems(env, logs)
    { WinnerHasKey(items, x.rec.key); }
    RewriteSane(env, own, logs, logs[own := LogFile(CompactLog(env, own, logs[own].data, now), true, mtime)], out, keys,
                heard, clock);
  }

  lemma {:induction false} ConsolidateSane(env: Env, own: string, dir: Dir, conflicts: set<string>, now: int,
                                           keys: set<string>, heard: int, clock: int)
    requires Lawful(env) && Sane(env, own, dir.logs, keys, heard, clock)
    ensures Sane(env, own, Consolidated(env, dir, own, {}, conflicts, now).logs, keys, heard, clock)
  {
    SaneOwn(env, own, dir.logs, keys, heard, clock);
    AfterLogs(env, dir, own, {}, conflicts, now);
    RewrittenMembers(env, dir, own, {}, conflicts, now);
    hide Lawful, Sane, AllItems, ScanLog, FrameAll, AllFaithful, LiveWinners, Winner, Consolidated, Rewritten, Gone;
    var out := Rewritten(env, dir, own, {}, conflicts, now);
    forall x | x in out
      ensures x in AllItems(env, dir.logs)
    { WinnerHasKey(AllItems(env, dir.logs), x.rec.key); }
    RewriteSane(env, own, dir.logs, Consolidated(env, dir, own, {}, conflicts, now).logs, out, keys, heard, clock);
  }

  lemma {:induction false} UpkeepSane(env: Env, own: string, dir: Dir, conflicts: set<string>, upkeep: Upkeep, now: int,
                                      keys: set<string>, heard: int, clock: int)
    requires Lawful(env) && own in dir.logs && dir.logs[own].readable && Sane(env, own, dir.logs, keys, heard, clock)
    ensures Sane(env, own, KeptUp(env, dir, own, conflicts, upkeep, now).logs, keys, heard, clock)
  {
    hide Lawful, Sane, CompactLog, Consolidated;
    match upkeep
    case Nothing =>
    case Compacting => CompactSane(env, own, dir.logs, now, now, keys, heard, clock);
    case Consolidating => ConsolidateSane(env, own, dir, conflicts, now, keys, heard, clock);
  }

  // ------------------------------------------------------------------ the calls

  /** Only the clocks moved. */
  lemma {:induction false} Waited(c: LogCache, index: Option<PackedIndex>, s: Moment, s': Moment,
                                  known: map<string, LogFile>, keys: set<string>, changed: Option<int>, heard: int,
                                  clock: int, mono: int, later: int, mono': int)
    requires Sound(c, index, s, known, keys, changed, heard, clock, mono) && clock <= later && mono <= mono'
    requires s'.known == s.known && s'.dir.logs == s.dir.logs
    ensures Sound(c, index, s', known, keys, changed, heard, later, mono')
  {
    hide Lawful, Sane, Knowing, AllItems, SameReadable, Extends, CollisionFree, Sizes;
    SaneLater(c.env, c.own, s.dir.logs, keys, heard, clock, later);
    if index.Some? {
      SaneLater(c.env, c.own, known, keys, heard, clock, later);
      LaterKnowing(c.env, known, index.value, keys, clock, later);
    }
  }

  /** A call that is blocked counts as a change. */
  function ChangedBy(changed: Option<int>, blocked: bool, mono: int): Option<int> {
    if blocked then Some(mono) else changed
  }

  /** The last change, if any, is a TTL ago. */
  predicate Quiet(c: LogCache, changed: Option<int>, mono: int) {
    changed.None? || mono >= changed.value + c.indexTtl
  }

  /** A read at `now` through the index that a call goes through: never stale, and a full scan at one of the call's
      clock readings when the last change is a TTL ago. */
  lemma {:induction false} ReadAfterLook(c: LogCache, index: Option<PackedIndex>, s: Moment,
                                         known: map<string, LogFile>, keys: set<string>, changed: Option<int>,
                                         heard: int, clock: int, mono0: int, now: int, wall: int, mono: int,
                                         ix: PackedIndex, key: string)
    requires Sound(c, index, s, known, keys, changed, heard, clock, mono0) && clock <= now <= wall && mono0 <= mono
    requires !c.Blocked(s, wall, mono) && c.Usable(ix, index, c.Outdated(s, mono), s.dir.logs, wall) && key in keys
    ensures WellShaped(ix)
    ensures var o := OutcomeAt(c.env, s.dir.logs, s.dir.pool, key, Index.Find(ix, c.env.digest(key)), now);
            && !o.Stale?
            && (Quiet(c, changed, mono) ==>
                  o == match ScanAnswer(c.env, s.dir.logs, s.dir.pool, key, if c.Outdated(s, mono) then wall else now)
                       case None => Missing case Some(v) => Hit(v))
  {
    Look(c, index, s, known, keys, changed, heard, clock, mono0, wall, mono, ix);
    hide Lawful, Sane, AllItems, SameReadable, Extends, Sizes, IsFresh, Indexable, OutcomeAt, ScanAnswer, WellShaped;
    if c.Outdated(s, mono) {
      SaneKeys(c.env, c.own, s.dir.logs, keys, heard, clock);
      FreshReadIsScan(c.env, s.dir.logs, s.dir.pool, now, wall, ix, keys, key);
    } else {
      LaterKnowing(c.env, known, ix, keys, clock, now);
      ReadThroughKnown(c.env, c.own, known, s.dir, ix, keys, key, now);
    }
  }

  method GetStep(c: LogCache, cmd: Command, ghost known: map<string, LogFile>, ghost keys: set<string>,
                 ghost changed: Option<int>, ghost heard: int, ghost clock: int, ghost mono: int)
    returns (answer: Answer, ghost known': map<string, LogFile>)
    requires c.Valid() && cmd.GetCmd?
    modifies c, c.dir
    ensures c.Valid()
    ensures Sound(c, old(c.index), old(c.Now()), known, keys, changed, heard, clock, mono)
            && Orderly(c.env, c.own, keys, old(c.dir.View()), Own(cmd), old(c.dir.View()), heard, clock, mono) ==>
              && c.dir.View() == old(c.dir.View())
              && (answer == Raises <==> c.Blocked(old(c.Now()), cmd.wall, cmd.mono))
              && Sound(c, c.index, c.Now(), known', keys,
                       ChangedBy(changed, c.Blocked(old(c.Now()), cmd.wall, cmd.mono), cmd.mono), heard,
                       cmd.wall, cmd.mono)
              && (answer != Raises && Quiet(c, changed, cmd.mono) ==>
                    || answer == c.ScanAnswerHere(c.dir.logs, c.dir.pool, cmd.key, cmd.now)
                    || answer == c.ScanAnswerHere(c.dir.logs, c.dir.pool, cmd.key, cmd.wall))
  {
    hide Sound, AllItems, Indexable, IsFresh, OutcomeAt, ScanAnswer, WellShaped, ServedFrom, Sizes, Lawful;
    ghost var s, index := c.Now(), c.index;
    ghost var good := Sound(c, index, s, known, keys, changed, heard, clock, mono)
      && Orderly(c.env, c.own, keys, s.dir, Own(cmd), s.dir, heard, clock, mono);
    ghost var o := c.Outdated(s, cmd.mono);
    forall ix | good && !c.Blocked(s, cmd.wall, cmd.mono) && c.Usable(ix, index, o, s.dir.logs, cmd.wall)
      ensures WellShaped(ix)
      ensures var out := OutcomeAt(c.env, s.dir.logs, s.dir.pool, cmd.key, Index.Find(ix, c.env.digest(cmd.key)),
                                   cmd.now);
              && !out.Stale?
              && (Quiet(c, changed, cmd.mono) ==>
                    out == match ScanAnswer(c.env, s.dir.logs, s.dir.pool, cmd.key, if o then cmd.wall else cmd.now)
                           case None => Missing case Some(v) => Hit(v))
      ensures Sound(c, Some(ix), s.(known := c.Checking(s, cmd.wall, cmd.mono)), KnownAfter(c, s, known, cmd.mono),
                    keys, changed, heard, cmd.wall, cmd.mono)
    {
      ReadAfterLook(c, index, s, known, keys, changed, heard, clock, mono, cmd.now, cmd.wall, cmd.mono, ix, cmd.key);
      Look(c, index, s, known, keys, changed, heard, clock, mono, cmd.wall, cmd.mono, ix);
    }
    var retried;
    answer, retried := c.Get(cmd.key, cmd.now, cmd.wall, cmd.mono, Dir(map[], map[]), cmd.now, cmd.wall, cmd.mono);
    known' := if answer == Raises then known else KnownAfter(c, s, known, cmd.mono);
    if good && c.Blocked(s, cmd.wall, cmd.mono) {
      LookBlocked(c, index, s, known, keys, changed, heard, clock, mono, cmd.wall, cmd.mono);
    }
  }

  /** The parts of a `set`'s effect: refused before or after the look at the index, or appended; an index is left
      only where no upkeep rewrote the logs. */
  lemma {:induction false} SetParts(c: LogCache, s: Moment, cmd: Command)
    requires cmd.SetCmd? && Lawful(c.env)
    ensures var (outcome, s') := c.SetEffect(s, cmd.key, cmd.value, cmd.expire, cmd.now, cmd.later, cmd.mono);
            var r := RecordFor(c.env, c.prefix, c.minFileSize, cmd.key, cmd.value, cmd.expire, cmd.now);
            var k := c.Checking(s, cmd.later, cmd.mono);
            if !c.env.storable(cmd.value) then outcome.Refused? && s' == s
            else if c.Blocked(s, cmd.later, cmd.mono) || !Encodable(c.env, r) then
              outcome.Refused? && s'.dir.logs == s.dir.logs && s'.known == k
            else
              && !outcome.Refused?
              && var logs := Appended(c.env, s.dir.logs, c.own, r, cmd.later);
                 && (outcome.Done().Compacting? ==> logs[c.own].readable)
                 && s'.dir.logs == KeptUp(c.env, Dir(logs, c.PoolAfter(s.dir.pool, cmd.value, cmd.now)), c.own,
                                          c.ConflictsIn(logs), outcome.Done(), cmd.later).logs
                 && (logs[c.own].readable ==> outcome.Stored?)
                 && (logs[c.own].readable ==> s'.known.indexed == outcome.Done().Nothing?)
                 && (outcome == Stored(Nothing) ==>
                     s'.known == k.(sizes := Some(k.Sig()[c.own := SizeOf(logs, c.own)])))
                 && (outcome == Stored(Nothing) ==> s'.dir.logs == logs)
  {
    hide Lawful, Appended, RecordFor, Encodable, Indexable, Spilled, Consolidated, CompactLog;
  }

  /** A `set` that was not refused, and left an index. */
  lemma {:induction false} SetAppendKeeps(c: LogCache, index: Option<PackedIndex>, s: Moment,
                                          known: map<string, LogFile>, keys: set<string>, changed: Option<int>,
                                          heard: int, clock: int, mono: int, ix: PackedIndex, r: Record, now: int,
                                          wall: int, mono': int, pool: map<string, PoolFile>)
    requires Sound(c, index, s, known, keys, changed, heard, clock, mono) && clock <= now <= wall && mono <= mono'
    requires !c.Blocked(s, wall, mono') && c.Usable(ix, index, c.Outdated(s, mono'), s.dir.logs, wall)
    requires Faithful(c.env, r) && r.key in keys && heard < r.Time() && r.Time() == now
    ensures var logs, k := Appended(c.env, s.dir.logs, c.own, r, wall), c.Checking(s, wall, mono');
            Sound(c, Some(FoldedIn(c.env, ix, c.own, r, SizeOf(s.dir.logs, c.own), FrameLength(c.env, r))),
                  Moment(Dir(logs, pool), k.(sizes := Some(k.Sig()[c.own := SizeOf(logs, c.own)]))),
                  Appended(c.env, KnownAfter(c, s, known, mono'), c.own, r, wall), keys, changed, heard, wall, mono')
  {
    Look(c, index, s, known, keys, changed, heard, clock, mono, wall, mono', ix);
    KnownSane(c, index, s, known, keys, changed, heard, clock, mono, wall, mono', ix);
    hide Sound, Lawful, AllItems, Indexable, IsFresh, Sizes, Appended, FoldedIn, Faithful, FrameLength, Sane;
    SoundSane(c, index, s, known, keys, changed, heard, clock, mono);
    AppendKeeps(c, ix, s.(known := c.Checking(s, wall, mono')), KnownAfter(c, s, known, mono'), keys, changed, heard,
                clock, wall, mono', r, pool);
  }

  lemma {:induction false} SoundSane(c: LogCache, index: Option<PackedIndex>, s: Moment, known: map<string, LogFile>,
                                     keys: set<string>, changed: Option<int>, heard: int, clock: int, mono: int)
    requires Sound(c, index, s, known, keys, changed, heard, clock, mono)
    ensures Lawful(c.env) && Sane(c.env, c.own, s.dir.logs, keys, heard, clock)
  {
    hide Sane, Lawful, Knowing;
  }

  lemma {:induction false} KnownSane(c: LogCache, index: Option<PackedIndex>, s: Moment, known: map<string, LogFile>,
                                     keys: set<string>, changed: Option<int>, heard: int, clock: int, mono: int,
                                     wall: int, mono': int, ix: PackedIndex)
    requires Sound(c, index, s, known, keys, changed, heard, clock, mono)
    requires c.Usable(ix, index, c.Outdated(s, mono'), s.dir.logs, wall)
    ensures Sane(c.env, c.own, KnownAfter(c, s, known, mono'), keys, heard, clock)
  {
    hide Sane, Lawful, Knowing, IsFresh, AllItems, Extends, SameReadable, Sizes;
  }

  /** Without an index only the logs matter. */
  lemma {:induction false} NoIndex(c: LogCache, s: Moment, known: map<string, LogFile>, keys: set<string>,
                                   changed: Option<int>, heard: int, clock: int, mono: int)
    requires Lawful(c.env) && CollisionFree(c.env, keys) && Sane(c.env, c.own, s.dir.logs, keys, heard, clock)
    requires !s.known.indexed
    ensures Sound(c, None, s, known, keys, changed, heard, clock, mono)
  {
    hide Sane, Lawful;
  }

  method SetStep(c: LogCache, cmd: Command, ghost known: map<string, LogFile>, ghost keys: set<string>,
                 ghost changed: Option<int>, ghost heard: int, ghost clock: int, ghost mono: int)
    returns (ghost known': map<string, LogFile>)
    requires c.Valid() && cmd.SetCmd?
    modifies c, c.dir
    ensures c.Valid()
    ensures Sound(c, old(c.index), old(c.Now()), known, keys, changed, heard, clock, mono)
            && Orderly(c.env, c.own, keys, old(c.dir.View()), Own(cmd), old(c.dir.View()), heard, clock, mono) ==>
              Sound(c, c.index, c.Now(), known', keys,
                    ChangedBy(changed,
                              c.env.storable(cmd.value) && c.Blocked(old(c.Now()), cmd.later, cmd.mono), cmd.mono),
                    heard, cmd.later, cmd.mono)
  {
    hide Sound, AllItems, Indexable, IsFresh, WellShaped, Sizes, Lawful, Appended, KeptUp, FoldedIn, RecordFor,
      Encodable, Sane, CollisionFree, FrameLength, Faithful;
    ghost var s, index := c.Now(), c.index;
    ghost var good := Sound(c, index, s, known, keys, changed, heard, clock, mono)
      && Orderly(c.env, c.own, keys, s.dir, Own(cmd), s.dir, heard, clock, mono);
    var outcome := c.Set(cmd.key, cmd.value, cmd.expire, cmd.now, cmd.later, cmd.mono);
    SetParts(c, s, cmd);
    hide c.SetEffect;
    known' := known;
    if good {
      ghost var r := RecordFor(c.env, c.prefix, c.minFileSize, cmd.key, cmd.value, cmd.expire, cmd.now);
      if !c.env.storable(cmd.value) {
        Waited(c, index, s, c.Now(), known, keys, changed, heard, clock, mono, cmd.later, cmd.mono);
      } else if c.Blocked(s, cmd.later, cmd.mono) {
        LookBlocked(c, index, s, known, keys, changed, heard, clock, mono, cmd.later, cmd.mono);
        Waited(c, index, s.(known := c.Knows()), c.Now(), known, keys, Some(cmd.mono), heard, cmd.later, cmd.mono,
               cmd.later, cmd.mono);
      } else if outcome.Refused? {
        known' := KnownAfter(c, s, known, cmd.mono);
        Look(c, index, s, known, keys, changed, heard, clock, mono, cmd.later, cmd.mono, c.index.value);
        Waited(c, c.index, s.(known := c.Knows()), c.Now(), known', keys, changed, heard, cmd.later, cmd.mono,
               cmd.later, cmd.mono);
      } else {
        RecordIs(c, cmd);
        known' := SetStored(c, index, s, known, keys, changed, heard, clock, mono, cmd, r, outcome, c.index, c.Now());
      }
    }
  }

  lemma {:induction false} SetStored(c: LogCache, index: Option<PackedIndex>, s: Moment, known: map<string, LogFile>,
                                     keys: set<string>, changed: Option<int>, heard: int, clock: int, mono: int,
                                     cmd: Command, r: Record, outcome: SetOutcome, index': Option<PackedIndex>,
                                     s': Moment)
    returns (known': map<string, LogFile>)
    requires Sound(c, index, s, known, keys, changed, heard, clock, mono) && cmd.SetCmd?
    requires Orderly(c.env, c.own, keys, s.dir, Own(cmd), s.dir, heard, clock, mono)
    requires r == RecordFor(c.env, c.prefix, c.minFileSize, cmd.key, cmd.value, cmd.expire, cmd.now) && r.value.Inline?
    requires !c.Blocked(s, cmd.later, cmd.mono) && c.env.storable(cmd.value) && Encodable(c.env, r)
    requires (outcome, s') == c.SetEffect(s, cmd.key, cmd.value, cmd.expire, cmd.now, cmd.later, cmd.mono)
    requires index'.Some? == s'.known.indexed && !outcome.Refused?
    requires index'.Some? ==> c.Overlaid(index', index, c.Outdated(s, cmd.mono), s.dir.logs, r, cmd.later)
    ensures Sound(c, index', s', known', keys, changed, heard, cmd.later, cmd.mono)
  {
    hide Sound, AllItems, Indexable, IsFresh, WellShaped, Sizes, Lawful, Appended, KeptUp, FoldedIn, Sane,
      CollisionFree, FrameLength, Faithful, c.SetEffect;
    SoundSane(c, index, s, known, keys, changed, heard, clock, mono);
    SetParts(c, s, cmd);
    RecordIs(c, cmd);
    StoredIsFaithful(c.env, r);
    var logs := Appended(c.env, s.dir.logs, c.own, r, cmd.later);
    AppendSane(c.env, c.own, s.dir.logs, r, cmd.later, keys, heard, clock);
    SaneOwn(c.env, c.own, logs, keys, heard, cmd.later);
    known' := known;
    SoundFree(c, index, s, known, keys, changed, heard, clock, mono);
    if index'.Some? {
      var ix :| c.Usable(ix, index, c.Outdated(s, cmd.mono), s.dir.logs, cmd.later)
        && index' == Some(FoldedIn(c.env, ix, c.own, r, SizeOf(s.dir.logs, c.own), FrameLength(c.env, r)));
      known' := Appended(c.env, KnownAfter(c, s, known, cmd.mono), c.own, r, cmd.later);
      SetAppendKeeps(c, index, s, known, keys, changed, heard, clock, mono, ix, r, cmd.now, cmd.later, cmd.mono,
                     s'.dir.pool);
      assert outcome == Stored(Nothing);
    } else {
      UpkeepSane(c.env, c.own, Dir(logs, c.PoolAfter(s.dir.pool, cmd.value, cmd.now)), c.ConflictsIn(logs),
                 outcome.Done(), cmd.later, keys, heard, cmd.later);
      NoIndex(c, s', known, keys, changed, heard, cmd.later, cmd.mono);
    }
  }

  lemma {:induction false} SoundFree(c: LogCache, index: Option<PackedIndex>, s: Moment, known: map<string, LogFile>,
                                     keys: set<string>, changed: Option<int>, heard: int, clock: int, mono: int)
    requires Sound(c, index, s, known, keys, changed, heard, clock, mono)
    ensures CollisionFree(c.env, keys)
  {
    hide Sane, Lawful, Knowing, CollisionFree;
  }

  lemma {:induction false} RecordIs(c: LogCache, cmd: Command)
    requires cmd.SetCmd?
    ensures var r := RecordFor(c.env, c.prefix, c.minFileSize, cmd.key, cmd.value, cmd.expire, cmd.now);
            r.key == cmd.key && r.Time() == cmd.now && r.value.Inline?
  {}

  method DeleteStep(c: LogCache, cmd: Command, ghost known: map<string, LogFile>, ghost keys: set<string>,
                    ghost changed: Option<int>, ghost heard: int, ghost clock: int, ghost mono: int)
    returns (ghost known': map<string, LogFile>)
    requires c.Valid() && cmd.DeleteCmd?
    modifies c, c.dir
    ensures c.Valid()
    ensures Sound(c, old(c.index), old(c.Now()), known, keys, changed, heard, clock, mono)
            && Orderly(c.env, c.own, keys, old(c.dir.View()), Own(cmd), old(c.dir.View()), heard, clock, mono) ==>
              Sound(c, c.index, c.Now(), known', keys,
                    ChangedBy(changed, c.Blocked(old(c.Now()), cmd.wall, cmd.mono), cmd.mono), heard,
                    cmd.wall, cmd.mono)
  {
    hide Sound, AllItems, Indexable, IsFresh, WellShaped, Sizes, Lawful, Appended, FoldedIn, LiveAtPlace, Winner,
      Encodable, Sane, CollisionFree, FrameLength, Faithful;
    ghost var s, index := c.Now(), c.index;
    ghost var good := Sound(c, index, s, known, keys, changed, heard, clock, mono)
      && Orderly(c.env, c.own, keys, s.dir, Own(cmd), s.dir, heard, clock, mono);
    var ok, deleted := c.Delete(cmd.key, cmd.now, cmd.wall, cmd.mono);
    known' := known;
    if good {
      ghost var r, o := Tombstone(cmd.key, cmd.now), c.Outdated(s, cmd.mono);
      if c.Blocked(s, cmd.wall, cmd.mono) {
        LookBlocked(c, index, s, known, keys, changed, heard, clock, mono, cmd.wall, cmd.mono);
      } else {
        ghost var ix :| c.Usable(ix, index, o, s.dir.logs, cmd.wall)
          && c.index == Some(if deleted
                             then FoldedIn(c.env, ix, c.own, r, SizeOf(s.dir.logs, c.own), FrameLength(c.env, r))
                             else ix);
        known' := KnownAfter(c, s, known, cmd.mono);
        Look(c, index, s, known, keys, changed, heard, clock, mono, cmd.wall, cmd.mono, ix);
        if deleted {
          SoundSane(c, index, s, known, keys, changed, heard, clock, mono);
          StoredTombstone(c.env, cmd.key, cmd.now);
          known' := Appended(c.env, KnownAfter(c, s, known, cmd.mono), c.own, r, cmd.wall);
          SetAppendKeeps(c, index, s, known, keys, changed, heard, clock, mono, ix, r, cmd.now, cmd.wall, cmd.mono,
                         s.dir.pool);
        }
      }
    }
  }

  lemma {:induction false} StoredTombstone(env: Env, key: string, now: int)
    requires Lawful(env) && Encodable(env, Tombstone(key, now))
    ensures Faithful(env, Tombstone(key, now))
  {
    StoredIsFaithful(env, Tombstone(key, now));
  }

  // ------------------------------------------------------------------ whole runs

  /** A peer's append and the pool as it leaves it. */
  method PeerStep(c: LogCache, e: Event)
    requires c.Valid() && e.Peer?
    modifies c.dir
    ensures c.Valid() && c.index == old(c.index) && c.Knows() == old(c.Knows())
    ensures c.dir.View() == Dir(GrownBy(old(c.dir.logs), e.n, e.extra, e.mtime), e.pool)
  {
    hide WellShaped, Lawful;
    c.dir.logs, c.dir.pool := GrownBy(c.dir.logs, e.n, e.extra, e.mtime), e.pool;
  }

  /** A new cache is sound over any directory in order. */
  lemma {:induction false} Starts(c: LogCache, s: Moment, keys: set<string>, wall: int, mono: int)
    requires Lawful(c.env) && CollisionFree(c.env, keys) && Sane(c.env, c.own, s.dir.logs, keys, wall, wall)
    requires !s.known.indexed
    ensures Sound(c, None, s, map[], keys, None, wall, wall, mono)
  {
    hide Sane, Lawful;
  }

  lemma {:induction false} FirstInOrder(env: Env, own: string, keys: set<string>, events: seq<Event>, dirs: seq<Dir>,
                                        wall: int, mono: int)
    requires AllOrderly(env, own, keys, events, dirs, wall, mono) && events != []
    ensures var n := |events| - 1;
            && AllOrderly(env, own, keys, events[..n], dirs[..n + 1], wall, mono)
            && Orderly(env, own, keys, dirs[n], events[n], dirs[n + 1], HeardAfter(wall, events[..n]),
                       WallAfter(wall, events[..n]), MonoAfter(mono, events[..n]))
  {
    hide Orderly, Sane, CollisionFree;
    var n := |events| - 1;
    forall i | 0 <= i < n
      ensures Orderly(env, own, keys, dirs[..n + 1][i], events[..n][i], dirs[..n + 1][i + 1],
                      HeardAfter(wall, events[..n][..i]), WallAfter(wall, events[..n][..i]),
                      MonoAfter(mono, events[..n][..i]))
    { assert events[..n][..i] == events[..i]; }
  }

  /** Does the call find that it cannot index the logs? */
  ghost predicate BlockedBy(c: LogCache, s: Moment, e: Event) {
    match e
    case Peer(_, _, _, _, _, _) => false
    case Own(cmd) => cmd.Indexes() && (cmd.SetCmd? ==> c.env.storable(cmd.value)) && c.Blocked(s, cmd.End(), cmd.mono)
  }

  /** Any sequence of calls of a new cache, with peers' appends in between, told by the directories on the way and by
      which calls could not index the logs.  In order, it leaves the index sound. */
  method Follow(c: LogCache, events: seq<Event>, ghost keys: set<string>, ghost wall: int, ghost mono: int)
    returns (ghost dirs: seq<Dir>, ghost blocked: seq<bool>, ghost known: map<string, LogFile>)
    requires c.Valid() && c.index.None?
    requires forall e :: e in events && e.Own? ==> e.cmd.Indexes()
    modifies c, c.dir
    ensures c.Valid() && |dirs| == |events| + 1 && |blocked| == |events|
    ensures dirs[0] == old(c.dir.View()) && dirs[|events|] == c.dir.View()
    ensures forall i :: 0 <= i < |events| && events[i].Peer? ==>
              dirs[i + 1] == Dir(GrownBy(dirs[i].logs, events[i].n, events[i].extra, events[i].mtime), events[i].pool)
    ensures forall i :: 0 <= i < |events| && blocked[i] ==>
              events[i].Own? && !Indexable(c.env, dirs[i].logs, events[i].cmd.End())
    ensures AllOrderly(c.env, c.own, keys, events, dirs, wall, mono) ==>
              Sound(c, c.index, c.Now(), known, keys, ChangedAt(events, blocked), HeardAfter(wall, events),
                    WallAfter(wall, events), MonoAfter(mono, events))
    decreases |events|
  {
    hide Sound, AllOrderly, Orderly, Lawful, WellShaped, Indexable, Sane, CollisionFree;
    if events == [] {
      dirs, blocked, known := [c.dir.View()], [], map[];
      StartsSound(c, keys, dirs, wall, mono);
      return;
    }
    var n := |events| - 1;
    var e := events[n];
    assert forall x :: x in events[..n] ==> x in events;
    dirs, blocked, known := Follow(c, events[..n], keys, wall, mono);
    ghost var s, changed := c.Now(), ChangedAt(events[..n], blocked);
    ghost var heard, clock, last := HeardAfter(wall, events[..n]), WallAfter(wall, events[..n]),
      MonoAfter(mono, events[..n]);
    ghost var dirs0 := dirs;
    ghost var sound := Sound(c, c.index, s, known, keys, changed, heard, clock, last);
    ghost var stuck := BlockedBy(c, s, e);
    ghost var index := c.index;
    match e {
      case Peer(_, _, _, _, _, _) =>
        PeerStep(c, e);
        if sound && Orderly(c.env, c.own, keys, s.dir, e, c.dir.View(), heard, clock, last) {
          PeerKeeps(c, index, s, known, keys, changed, heard, clock, last, e);
        }
      case Own(cmd) =>
        assert e in events;
        match cmd {
          case SetCmd(_, _, _, _, _, _) => known := SetStep(c, cmd, known, keys, changed, heard, clock, last);
          case DeleteCmd(_, _, _, _) => known := DeleteStep(c, cmd, known, keys, changed, heard, clock, last);
          case GetCmd(_, _, _, _) =>
            ghost var before := known;
            var answer;
            answer, known := GetStep(c, cmd, before, keys, changed, heard, clock, last);
        }
        OwnOrderly(c.env, c.own, keys, s.dir, cmd, c.dir.View(), heard, clock, last);
    }
    dirs, blocked := dirs + [c.dir.View()], blocked + [stuck];
    if AllOrderly(c.env, c.own, keys, events, dirs, wall, mono) {
      FirstInOrder(c.env, c.own, keys, events, dirs, wall, mono);
      assert dirs[..n + 1] == dirs0;
    }
    assert blocked[..n] + [stuck] == blocked;
  }

  lemma {:induction false} StartsSound(c: LogCache, keys: set<string>, dirs: seq<Dir>, wall: int, mono: int)
    requires c.Valid() && c.index.None? && dirs == [c.dir.View()]
    ensures AllOrderly(c.env, c.own, keys, [], dirs, wall, mono) ==>
              Sound(c, None, c.Now(), map[], keys, None, wall, wall, mono)
  {
    hide Sane, Lawful, CollisionFree, Sound;
    if AllOrderly(c.env, c.own, keys, [], dirs, wall, mono) { Starts(c, c.Now(), keys, wall, mono); }
  }

  /** What is in order of a call does not depend on the directory it leaves. */
  lemma {:induction false} OwnOrderly(env: Env, own: string, keys: set<string>, before: Dir, cmd: Command, after: Dir,
                                      heard: int, wall: int, mono: int)
    ensures Orderly(env, own, keys, before, Own(cmd), after, heard, wall, mono)
            == Orderly(env, own, keys, before, Own(cmd), before, heard, wall, mono)
  {}

  /** A `get` after any sequence of gets, sets and deletes of the cache, with peers' appends in between: if it does not
      raise, and the last append of a peer, and the last call that could not index the logs, are at least the index's
      TTL ago, it answers as a full scan of the logs does at one of its clock readings. */
  method GetAfterQuiet(c: LogCache, events: seq<Event>, get: Command, ghost keys: set<string>, ghost wall: int,
                       ghost mono: int)
    returns (answer: Answer, ghost dirs: seq<Dir>, ghost blocked: seq<bool>)
    requires c.Valid() && c.index.None? && get.GetCmd?
    requires forall e :: e in events && e.Own? ==> e.cmd.Indexes()
    modifies c, c.dir
    ensures |dirs| == |events| + 2 && |blocked| == |events|
    ensures dirs[0] == old(c.dir.View()) && dirs[|events| + 1] == c.dir.View()
    ensures forall i :: 0 <= i < |events| && events[i].Peer? ==>
              dirs[i + 1] == Dir(GrownBy(dirs[i].logs, events[i].n, events[i].extra, events[i].mtime), events[i].pool)
    ensures forall i :: 0 <= i < |events| && blocked[i] ==>
              events[i].Own? && !Indexable(c.env, dirs[i].logs, events[i].cmd.End())
    ensures AllOrderly(c.env, c.own, keys, events + [Own(get)], dirs, wall, mono) && answer != Raises
            && (var changed := ChangedAt(events, blocked); changed.None? || get.mono >= changed.value + c.indexTtl) ==>
              || answer == c.ScanAnswerHere(c.dir.logs, c.dir.pool, get.key, get.now)
              || answer == c.ScanAnswerHere(c.dir.logs, c.dir.pool, get.key, get.wall)
  {
    hide Sound, AllOrderly, Orderly, Lawful, WellShaped, Indexable, Sane, CollisionFree, ScanAnswer;
    ghost var known;
    dirs, blocked, known := Follow(c, events, keys, wall, mono);
    ghost var before, all := dirs, events + [Own(get)];
    assert all[..|events|] == events;
    ghost var s, changed := c.Now(), ChangedAt(events, blocked);
    answer, known := GetStep(c, get, known, keys, changed, HeardAfter(wall, events), WallAfter(wall, events),
                             MonoAfter(mono, events));
    OwnOrderly(c.env, c.own, keys, s.dir, get, c.dir.View(), HeardAfter(wall, events), WallAfter(wall, events),
               MonoAfter(mono, events));
    dirs := dirs + [c.dir.View()];
    if AllOrderly(c.env, c.own, keys, all, dirs, wall, mono) {
      FirstInOrder(c.env, c.own, keys, all, dirs, wall, mono);
      assert dirs[..|events| + 1] == before;
    }
  }
}
