/** Runs of a lone writer that never raise: the log stays within the width of an index entry because neither
    compaction nor consolidation makes it longer than its records are. */
module LoneWriterRoom {
  import opened Bytes
  import opened Options
  import opened Order
  import opened Pickle
  import opened Frames
  import opened ScanFacts
  import opened Fold
  import opened Store
  import opened Index
  import opened Compaction
  import opened Consolidation
  import opened LogCaches
  import opened LoneWriter
  import opened LoneWriterRuns

  // ------------------------------------------------------------------ how long the frames of records are

  function FrameBytes(env: Env, items: seq<Located>): nat {
    if items == [] then 0 else FrameLength(env, items[0].rec) + FrameBytes(env, items[1..])
  }

  lemma {:induction false} FrameBytesConcat(env: Env, a: seq<Located>, b: seq<Located>)
    ensures FrameBytes(env, a + b) == FrameBytes(env, a) + FrameBytes(env, b)
  {
    if a == [] {
      assert a + b == b;
    } else {
      assert (a + b)[1..] == a[1..] + b;
      FrameBytesConcat(env, a[1..], b);
    }
  }

  /** Items of one key each, all among others, are no longer than those. */
  lemma {:induction false} FewerBytes(env: Env, kept: seq<Located>, items: seq<Located>)
    requires DistinctKeys(kept) && forall x :: x in kept ==> x in items
    ensures FrameBytes(env, kept) <= FrameBytes(env, items)
    decreases |kept|
  {
    hide FrameLength;
    if kept != [] {
      var x := kept[0];
      assert x in kept;
      var i :| 0 <= i < |items| && items[i] == x;
      var rest := items[..i] + items[i + 1..];
      assert items == items[..i] + ([x] + items[i + 1..]);
      FrameBytesConcat(env, items[..i], [x] + items[i + 1..]);
      FrameBytesConcat(env, [x], items[i + 1..]);
      FrameBytesConcat(env, items[..i], items[i + 1..]);
      assert FrameBytes(env, [x]) == FrameLength(env, x.rec) by { assert [x][1..] == []; }
      forall y | y in kept[1..]
        ensures y in rest
      {
        var j :| 0 <= j < |kept[1..]| && kept[1..][j] == y;
        assert kept[j + 1].rec.key != kept[0].rec.key;
        assert y in items && y != x;
      }
      FewerBytes(env, kept[1..], rest);
    }
  }

  lemma {:induction false} SameBytes(env: Env, a: seq<Located>, b: seq<Located>)
    requires |a| == |b| && forall i :: 0 <= i < |a| ==> a[i].rec == b[i].rec
    ensures FrameBytes(env, a) == FrameBytes(env, b)
  {
    if a != [] { SameBytes(env, a[1..], b[1..]); }
  }

  /** The frames of the records, one after the other. */
  lemma {:induction false} FrameAllBytes(env: Env, items: seq<Located>)
    requires AllFaithful(env, RecordsIn(items))
    ensures |FrameAll(env, RecordsIn(items))| == FrameBytes(env, items)
  {
    hide Faithful, Frame;
    if items != [] {
      FrameAllStep(env, RecordsIn(items));
      assert RecordsIn(items)[1..] == RecordsIn(items[1..]);
      FrameAllBytes(env, items[1..]);
      assert Faithful(env, RecordsIn(items)[0]);
      FrameIsLong(env, items[0].rec);
    }
  }

  lemma {:induction false} FrameIsLong(env: Env, r: Record)
    requires |BlobOf(env, r)| < U32
    ensures |Frame(env, r)| == FrameLength(env, r)
  {}

  // ------------------------------------------------------------------ what fits

  /** The own log and the frames that a rewrite of its records would write take at most `room` bytes, and each of
      its frames, as it stands and rewritten, can be named by an index entry. */
  ghost predicate Roomy(env: Env, own: string, logs: map<string, LogFile>, room: nat) {
    var items := OwnItems(env, own, logs);
    && SizeOf(logs, own) <= room && FrameBytes(env, items) <= room
    && forall x :: x in items ==> x.end - x.start < U32 && FrameLength(env, x.rec) < U32
  }

  /** The log stays within what an index entry can name: 2^64 bytes, and frames under 2^32. */
  ghost predicate Narrow(env: Env, own: string, data: bytes) {
    |data| < U64 && forall x :: x in ScanLog(env, own, data) ==> x.end - x.start < U32
  }

  /** A prefix whose only log is narrow can be indexed. */
  lemma {:induction false} NarrowIsIndexable(env: Env, logs: map<string, LogFile>, own: string, now: int)
    requires logs.Keys <= {own} && (own in logs ==> Narrow(env, own, logs[own].data))
    ensures Indexable(env, logs, now)
  {
    hide Merge, ScanLog, AllItems, LogTable;
    var items, table := AllItems(env, logs), LogTable(logs, SortedNames(logs.Keys));
    AllItemsMembers(env, logs);
    LogTableNames(logs, SortedNames(logs.Keys));
    OwnPlaces(env, own, logs);
    forall x | x in items
      ensures Fits(table, x)
    {
      assert own in table && logs.Keys == {own};
      OneName(own);
      assert table[0] == own;
    }
    var m := Merge(env, items);
    assert forall d :: d in m ==> m[d] in items;
  }

  lemma {:induction false} RoomyIsIndexable(env: Env, own: string, logs: map<string, LogFile>, room: nat, now: int)
    requires SoleLog(env, own, logs) && Roomy(env, own, logs, room) && room < U64
    ensures Indexable(env, logs, now)
  {
    hide ScanLog, Indexable, Whole;
    NarrowIsIndexable(env, logs, own, now);
  }

  /** The own records stand in the own log, inside it. */
  lemma {:induction false} OwnPlaces(env: Env, own: string, logs: map<string, LogFile>)
    ensures forall x :: x in OwnItems(env, own, logs) ==>
              x.log == own && own in logs && x.start <= x.end <= |logs[own].data|
  {
    if own in logs {
      ScanLogMembers(env, own, logs[own].data);
    }
  }

  lemma {:induction false} AppendRoomy(env: Env, own: string, logs: map<string, LogFile>, r: Record, now: int,
                                       room: nat)
    requires SoleLog(env, own, logs) && Roomy(env, own, logs, room) && Faithful(env, r) && FrameLength(env, r) < U32
    ensures var after := Appended(env, logs, own, r, now);
            SoleLog(env, own, after) && Roomy(env, own, after, room + FrameLength(env, r))
  {
    hide Faithful, OwnItems, Whole, ParseFrame, FrameLength, Frame;
    AppendedOwn(env, own, logs, r, now);
    var items, size := OwnItems(env, own, logs), SizeOf(logs, own);
    var x := Located(r, own, size, size + FrameLength(env, r));
    FrameBytesConcat(env, items, [x]);
    assert [x][1..] == [];
    AppendedSize(env, own, logs, r, now);
  }

  lemma {:induction false} AppendedSize(env: Env, own: string, logs: map<string, LogFile>, r: Record, now: int)
    requires |BlobOf(env, r)| < U32
    ensures SizeOf(Appended(env, logs, own, r, now), own) == SizeOf(logs, own) + FrameLength(env, r)
  {
    FrameIsLong(env, r);
  }

  /** A log written from some of its records, one a key. */
  lemma {:induction false} RewriteRoomy(env: Env, own: string, logs: map<string, LogFile>, kept: seq<Located>, now: int,
                                        room: nat)
    requires Roomy(env, own, logs, room) && AllFaithful(env, RecordsIn(kept))
    requires DistinctKeys(kept) && forall x :: x in kept ==> x in OwnItems(env, own, logs)
    ensures var after := map[own := LogFile(FrameAll(env, RecordsIn(kept)), true, now)];
            SoleLog(env, own, after) && Roomy(env, own, after, room)
  {
    hide OwnItems, AllFaithful, FrameAll, FrameLength;
    var recs := RecordsIn(kept);
    var data := FrameAll(env, recs);
    FewerBytes(env, kept, OwnItems(env, own, logs));
    FrameAllBytes(env, kept);
    LogRoundTrip(env, recs);
    RewrittenPairs(env, own, kept);
    var found := ScanLog(env, own, data);
    SameBytes(env, found, kept);
    SpanLengths(env, recs, 0);
    hide Walk;
    forall x | x in found
      ensures x.end - x.start < U32 && FrameLength(env, x.rec) < U32
    {
      var i :| 0 <= i < |found| && found[i] == x;
      assert kept[i] in kept && found[i].rec == kept[i].rec;
    }
    OwnFound(env, own, data, now);
  }

  lemma {:induction false} OwnFound(env: Env, own: string, data: bytes, now: int)
    ensures OwnItems(env, own, map[own := LogFile(data, true, now)]) == ScanLog(env, own, data)
  {}

  lemma {:induction false} SpanLengths(env: Env, recs: seq<Record>, at: nat)
    ensures var s := SpansFrom(env, recs, at);
            forall i :: 0 <= i < |s| ==> s[i].end - s[i].start == FrameLength(env, recs[i])
    decreases |recs|
  {
    hide FrameLength;
    if recs != [] { SpanLengths(env, recs[1..], at + FrameLength(env, recs[0])); }
  }

  lemma {:induction false} CompactRoomy(env: Env, own: string, logs: map<string, LogFile>, now: int, room: nat)
    requires Lawful(env) && SoleLog(env, own, logs) && Roomy(env, own, logs, room) && own in logs
    ensures var after := logs[own := LogFile(CompactLog(env, own, logs[own].data, now), true, now)];
            SoleLog(env, own, after) && Roomy(env, own, after, room)
  {
    hide Lawful, ScanLog, LiveWinners, FrameAll, AllFaithful, Roomy, Whole;
    var items := ScanLog(env, own, logs[own].data);
    var kept := LiveWinners(items, now);
    KeptAreFaithful(env, own, logs[own].data, now);
    LiveWinnersFacts(items, now);
    forall x | x in kept
      ensures x in items
    { WinnerHasKey(items, x.rec.key); }
    RewriteRoomy(env, own, logs, kept, now, room);
    assert logs[own := LogFile(FrameAll(env, RecordsIn(kept)), true, now)]
           == map[own := LogFile(FrameAll(env, RecordsIn(kept)), true, now)];
  }

  lemma {:induction false} ConsolidateRoomy(env: Env, own: string, dir: Dir, prune: set<string>, conflicts: set<string>,
                                            now: int, room: nat)
    requires Lawful(env) && SoleLog(env, own, dir.logs) && Roomy(env, own, dir.logs, room)
    ensures var after := Consolidated(env, dir, own, prune, conflicts, now).logs;
            SoleLog(env, own, after) && Roomy(env, own, after, room)
  {
    hide Lawful, AllItems, OwnItems, LiveWinners, FrameAll, AllFaithful, Roomy, Whole, Ours, Resolved;
    var items, fold := OwnItems(env, own, dir.logs), FoldEligible(prune, conflicts, own);
    SoleItems(env, own, dir.logs);
    var keep := KeepOf(env, dir.logs, now);
    var kept := Resolved(Ours(keep, own, fold), dir.pool);
    LiveWinnersFacts(items, now);
    OursMembers(keep, own, fold, dir.pool);
    OursDistinct(keep, own, fold, dir.pool);
    ConsolidatedAreFaithful(env, dir.logs, dir.pool, own, fold, now);
    forall x | x in kept
      ensures x in items
    { WinnerHasKey(items, x.rec.key); }
    RewriteRoomy(env, own, dir.logs, kept, now, room);
    NothingRoomy(env, own, room);
    assert own !in Unread(dir.logs);
    var after := Consolidated(env, dir, own, prune, conflicts, now).logs;
    if kept == [] {
      assert after == map[];
    } else {
      assert after == map[own := LogFile(FrameAll(env, RecordsIn(kept)), true, now)];
    }
  }

  lemma {:induction false} NothingRoomy(env: Env, own: string, room: nat)
    ensures SoleLog(env, own, map[]) && Roomy(env, own, map[], room)
  {}

  // ------------------------------------------------------------------ runs that never raise

  /** The bytes of the frame that a call may append. */
  function Need(c: LogCache, cmd: Command): nat {
    match cmd
    case SetCmd(key, value, expire, now, _, _) =>
      FrameLength(c.env, RecordFor(c.env, c.prefix, c.minFileSize, key, value, expire, now))
    case DeleteCmd(key, now, _, _) => FrameLength(c.env, Tombstone(key, now))
    case _ => 0
  }

  function Needs(c: LogCache, cmds: seq<Command>): nat {
    if cmds == [] then 0 else Need(c, cmds[0]) + Needs(c, cmds[1..])
  }

  /** Pickle and the frame header accept what the call would append, and an index entry can name it. */
  ghost predicate Accepted(c: LogCache, cmd: Command) {
    && Need(c, cmd) < U32
    && match cmd
       case SetCmd(key, value, expire, now, _, _) =>
         Writable(c.env, c.prefix, c.minFileSize, key, value, expire, now)
       case DeleteCmd(key, now, _, _) => Encodable(c.env, Tombstone(key, now))
       case _ => true
  }

  lemma {:induction false} KeepsUpRoomy(env: Env, own: string, dir: Dir, conflicts: set<string>, upkeep: Upkeep,
                                        now: int, room: nat)
    requires Lawful(env) && own in dir.logs && SoleLog(env, own, dir.logs) && Roomy(env, own, dir.logs, room)
    ensures var after := KeptUp(env, dir, own, conflicts, upkeep, now).logs;
            SoleLog(env, own, after) && Roomy(env, own, after, room)
  {
    hide Lawful, Roomy, CompactLog, Consolidated, Whole;
    match upkeep
    case Nothing =>
    case Compacting => CompactRoomy(env, own, dir.logs, now, room);
    case Consolidating => ConsolidateRoomy(env, own, dir, {}, conflicts, now, room);
  }

  lemma {:induction false} MoreRoom(env: Env, own: string, logs: map<string, LogFile>, room: nat, more: nat)
    requires Roomy(env, own, logs, room) && room <= more
    ensures Roomy(env, own, logs, more)
  {}

  lemma {:induction false} SetRoomy(c: LogCache, m: Table, s: Moment, cmd: Command, room: nat)
    requires Lawful(c.env) && cmd.SetCmd? && Accepted(c, cmd)
    requires SoleLog(c.env, c.own, s.dir.logs) && Roomy(c.env, c.own, s.dir.logs, room) && room + Need(c, cmd) < U64
    ensures var t := React(c, m, s, cmd);
            && t.reply == Done && t.table == MapAfter(m, cmd, cmd.now)
            && SoleLog(c.env, c.own, t.s.dir.logs) && Roomy(c.env, c.own, t.s.dir.logs, room + Need(c, cmd))
  {
    hide Lawful, Roomy, Indexable, Whole, Appended, KeptUp, FrameLength;
    RoomyIsIndexable(c.env, c.own, s.dir.logs, room, cmd.later);
    var r := RecordFor(c.env, c.prefix, c.minFileSize, cmd.key, cmd.value, cmd.expire, cmd.now);
    StoredIsFaithful(c.env, r);
    AppendRoomy(c.env, c.own, s.dir.logs, r, cmd.later, room);
    SetGoesThrough(c, s, cmd);
    SetLeaves(c, s, cmd);
    hide c.SetEffect;
    var (outcome, s') := c.SetEffect(s, cmd.key, cmd.value, cmd.expire, cmd.now, cmd.later, cmd.mono);
    var logs := Appended(c.env, s.dir.logs, c.own, r, cmd.later);
    KeepsUpRoomy(c.env, c.own, Dir(logs, c.PoolAfter(s.dir.pool, cmd.value, cmd.now)), c.ConflictsIn(logs),
                 outcome.Done(), cmd.later, room + Need(c, cmd));
  }

  lemma {:induction false} SetGoesThrough(c: LogCache, s: Moment, cmd: Command)
    requires Lawful(c.env) && cmd.SetCmd? && Accepted(c, cmd) && Indexable(c.env, s.dir.logs, cmd.later)
    ensures var (outcome, _) := c.SetEffect(s, cmd.key, cmd.value, cmd.expire, cmd.now, cmd.later, cmd.mono);
            !outcome.Refused?
  {
    hide Lawful, Indexable, Appended, KeptUp;
  }

  lemma {:induction false} DeleteRoomy(c: LogCache, m: Table, s: Moment, cmd: Command, room: nat)
    requires Lawful(c.env) && cmd.DeleteCmd? && Accepted(c, cmd)
    requires SoleLog(c.env, c.own, s.dir.logs) && Roomy(c.env, c.own, s.dir.logs, room) && room + Need(c, cmd) < U64
    ensures var t, at := React(c, m, s, cmd), Decisive(c, s, cmd);
            && t.reply == MapReply(m, cmd, at) && t.table == MapAfter(m, cmd, at)
            && SoleLog(c.env, c.own, t.s.dir.logs) && Roomy(c.env, c.own, t.s.dir.logs, room + Need(c, cmd))
  {
    hide Lawful, Roomy, Indexable, Whole, Appended, FrameLength;
    RoomyIsIndexable(c.env, c.own, s.dir.logs, room, cmd.wall);
    var t := Tombstone(cmd.key, cmd.now);
    StoredIsFaithful(c.env, t);
    AppendRoomy(c.env, c.own, s.dir.logs, t, cmd.wall, room);
    MoreRoom(c.env, c.own, s.dir.logs, room, room + Need(c, cmd));
  }

  /** A call that is accepted while there is room is answered, and leaves the rest of the room. */
  lemma {:induction false} StepRoomy(c: LogCache, m: Table, s: Moment, cmd: Command, room: nat)
    requires Lawful(c.env) && Accepted(c, cmd)
    requires SoleLog(c.env, c.own, s.dir.logs) && Roomy(c.env, c.own, s.dir.logs, room) && room + Need(c, cmd) < U64
    ensures var t, at := React(c, m, s, cmd), Decisive(c, s, cmd);
            && t.reply == MapReply(m, cmd, at) && t.table == MapAfter(m, cmd, at)
            && SoleLog(c.env, c.own, t.s.dir.logs) && Roomy(c.env, c.own, t.s.dir.logs, room + Need(c, cmd))
  {
    hide Lawful, Roomy, Indexable, Whole, Appended, FrameLength, CompactLog, Consolidated, c.SetEffect;
    match cmd
    case SetCmd(_, _, _, _, _, _) => SetRoomy(c, m, s, cmd, room);
    case GetCmd(_, _, wall, _) => RoomyIsIndexable(c.env, c.own, s.dir.logs, room, wall);
    case DeleteCmd(_, _, _, _) => DeleteRoomy(c, m, s, cmd, room);
    case CompactCmd(now) => if c.own in s.dir.logs { CompactRoomy(c.env, c.own, s.dir.logs, now, room); }
    case ConsolidateCmd(prune, now, _) =>
      ConsolidateRoomy(c.env, c.own, s.dir, prune, c.ConflictsIn(s.dir.logs), now, room);
    case ClearCmd(_) =>
      NothingRoomy(c.env, c.own, room);
      assert s.dir.logs - {c.own} == map[];
    case IterateCmd(_) =>
  }

  /** The map's replies to a run, each call at the clock reading that decides it. */
  ghost function DecidedReplies(c: LogCache, m: Table, s: Moment, cmds: seq<Command>): seq<Reply>
    requires Lawful(c.env)
    decreases |cmds|
  {
    if cmds == [] then []
    else
      var at := Decisive(c, s, cmds[0]);
      [MapReply(m, cmds[0], at)] + DecidedReplies(c, MapAfter(m, cmds[0], at), React(c, m, s, cmds[0]).s, cmds[1..])
  }

  /** A run whose records are accepted and fit beside the log it starts from never raises: every call replies as
      the map does, and when no call straddles two clock readings the replies are the map's at the first ones. */
  lemma {:induction false} WritableRunsAnswer(c: LogCache, m: Table, s: Moment, cmds: seq<Command>, room: nat)
    requires Lawful(c.env) && forall cmd :: cmd in cmds ==> Accepted(c, cmd)
    requires SoleLog(c.env, c.own, s.dir.logs) && Roomy(c.env, c.own, s.dir.logs, room) && room + Needs(c, cmds) < U64
    ensures var replies := Reactions(c, m, s, cmds).replies;
            && replies == DecidedReplies(c, m, s, cmds) && (forall r :: r in replies ==> !r.Failed?)
            && ((forall cmd :: cmd in cmds && !cmd.SetCmd? ==> cmd.End() == cmd.now) ==> replies == MapReplies(m, cmds))
    decreases |cmds|
  {
    hide Lawful, Roomy, SoleLog, Accepted, React, MapReply, MapAfter, Need, Decisive;
    if cmds != [] {
      assert cmds[0] in cmds;
      StepRoomy(c, m, s, cmds[0], room);
      var first := React(c, m, s, cmds[0]);
      WritableRunsAnswer(c, first.table, first.s, cmds[1..], room + Need(c, cmds[0]));
      NoFailure(m, cmds[0], Decisive(c, s, cmds[0]));
      DecisiveReading(c, s, cmds[0]);
    }
  }

  lemma {:induction false} NoFailure(m: Table, cmd: Command, at: int)
    ensures !MapReply(m, cmd, at).Failed?
  {}

  lemma {:induction false} DecisiveReading(c: LogCache, s: Moment, cmd: Command)
    ensures Decisive(c, s, cmd) == cmd.now || (!cmd.SetCmd? && Decisive(c, s, cmd) == cmd.End())
  {}

  /** The same of the cache itself. */
  method RunWritable(c: LogCache, cmds: seq<Command>, ghost m: Table, ghost clock: int, ghost keys: set<string>,
                     ghost blobs: set<bytes>, ghost room: nat)
    returns (replies: seq<Reply>, ghost m': Table)
    requires Refines(c, m, clock, keys, blobs) && Timely(clock, cmds)
    requires forall cmd :: cmd in cmds ==> Covered(c.env, cmd, keys, blobs) && Accepted(c, cmd)
    requires Roomy(c.env, c.own, c.dir.logs, room) && room + Needs(c, cmds) < U64
    modifies c, c.dir
    ensures Refines(c, m', EndOf(clock, cmds), keys, blobs)
    ensures replies == DecidedReplies(c, m, old(c.Now()), cmds)
    ensures (forall cmd :: cmd in cmds && !cmd.SetCmd? ==> cmd.End() == cmd.now) ==> replies == MapReplies(m, cmds)
  {
    hide Lawful, Roomy, SoleLog, Accepted, React, MapReply, MapAfter, Need, Decisive, Represents, Leads, OwnItems;
    WritableRunsAnswer(c, m, c.Now(), cmds, room);
    hide Inv;
    replies, m' := Run(c, cmds, m, clock, keys, blobs);
  }

  // ------------------------------------------------------------------ when the index is built again

  /** The sizes remembered with an index are those of the logs. */
  predicate Synced(s: Moment) {
    s.known.indexed ==> s.known.sizes == Some(Sizes(s.dir.logs))
  }

  /** A lone writer's index is outdated only when there is none. */
  lemma {:induction false} SyncedChecks(c: LogCache, s: Moment, wall: int, mono: int)
    requires Synced(s)
    ensures c.Outdated(s, mono) <==> !s.known.indexed
    ensures !c.Blocked(s, wall, mono) ==> c.Checking(s, wall, mono).sizes == Some(Sizes(s.dir.logs))
    ensures Synced(s.(known := c.Checking(s, wall, mono)))
  {
    hide Indexable, Sizes;
  }

  lemma {:induction false} AppendSynced(env: Env, own: string, logs: map<string, LogFile>, r: Record, now: int)
    requires SoleLog(env, own, logs) && |BlobOf(env, r)| < U32
    ensures var after := Appended(env, logs, own, r, now);
            Sizes(after) == Sizes(logs)[own := SizeOf(after, own)] && after[own].readable
  {
    hide Whole, Frame;
  }

  lemma {:induction false} SetSynced(c: LogCache, s: Moment, cmd: Command)
    requires Lawful(c.env) && SoleLog(c.env, c.own, s.dir.logs) && Synced(s) && cmd.SetCmd?
    ensures var (_, s') := c.SetEffect(s, cmd.key, cmd.value, cmd.expire, cmd.now, cmd.later, cmd.mono); Synced(s')
  {
    hide Lawful, Indexable, Whole, Sizes, Consolidated, CompactLog, Spilled, c.Outdated, c.Blocked, Appended,
      c.Checking;
    SyncedChecks(c, s, cmd.later, cmd.mono);
    var r := RecordFor(c.env, c.prefix, c.minFileSize, cmd.key, cmd.value, cmd.expire, cmd.now);
    if Encodable(c.env, r) { AppendSynced(c.env, c.own, s.dir.logs, r, cmd.later); }
    assert Sizes(s.dir.logs) == Sizes(Dir(s.dir.logs, c.PoolAfter(s.dir.pool, cmd.value, cmd.now)).logs);
  }

  /** So it stays through every call: a lone writer builds an index again only at the first call that needs one
      after the start, a compaction, a consolidation, explicit or automatic, or a clear. */
  lemma {:induction false} StaysSynced(c: LogCache, m: Table, s: Moment, cmd: Command)
    requires Lawful(c.env) && SoleLog(c.env, c.own, s.dir.logs) && Synced(s)
    ensures Synced(React(c, m, s, cmd).s)
    ensures cmd.Indexes() ==> (c.Outdated(s, cmd.mono) <==> !s.known.indexed)
  {
    hide Lawful, Indexable, Whole, Sizes, Consolidated, CompactLog, c.SetEffect, Appended, c.Outdated, c.Checking,
      c.Blocked;
    match cmd
    case SetCmd(_, _, _, _, later, mono) =>
      SetSynced(c, s, cmd);
      SyncedChecks(c, s, later, mono);
    case GetCmd(_, _, wall, mono) => SyncedChecks(c, s, wall, mono);
    case DeleteCmd(key, now, wall, mono) =>
      SyncedChecks(c, s, wall, mono);
      if Encodable(c.env, Tombstone(key, now)) {
        AppendSynced(c.env, c.own, s.dir.logs, Tombstone(key, now), wall);
      }
    case _ =>
  }
}
