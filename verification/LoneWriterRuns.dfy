/** Whole runs of a lone writer, answered like a plain map with expiry times. */
module LoneWriterRuns {
  import opened Bytes
  import opened Options
  import opened Expiry
  import opened Pickle
  import opened Frames
  import opened ScanFacts
  import opened Fold
  import opened Store
  import opened Index
  import opened Reading
  import opened Compaction
  import opened Consolidation
  import opened LogCaches
  import opened LoneWriter
  import opened Order

  /** A call, with the clock readings it takes.  A `set` reads the wall clock once before it takes the
      lock, and again, `later`, under it; a `get` or `delete` once more, as `wall`, for a rebuild. */
  datatype Command =
    | SetCmd(key: string, value: PyObj, expire: Option<int>, now: int, later: int, mono: int)
    | GetCmd(key: string, now: int, wall: int, mono: int)
    | DeleteCmd(key: string, now: int, wall: int, mono: int)
    | CompactCmd(now: int)
    | ConsolidateCmd(prune: set<string>, now: int, mono: int)
    | ClearCmd(now: int)
    | IterateCmd(now: int)
  {
    function End(): int {
      match this
      case SetCmd(_, _, _, _, later, _) => later
      case GetCmd(_, _, wall, _) => wall
      case DeleteCmd(_, _, wall, _) => wall
      case _ => now
    }

    /** The call goes through the index. */
    predicate Indexes() {
      SetCmd? || GetCmd? || DeleteCmd?
    }
  }

  datatype Reply =
    | Failed
    | Done
    | Found(value: Option<PyObj>)
    | Removed(existed: bool)
    | Dropped(count: nat)
    | Keys(keys: set<string>)

  // ------------------------------------------------------------------ the plain map's answers

  /** The map's reply when it judges expiry at `at`. */
  function MapReply(m: Table, cmd: Command, at: int): Reply {
    match cmd
    case SetCmd(_, _, _, _, _, _) => Done
    case GetCmd(key, _, _, _) => Found(if Alive(m, key, at) then Some(m[key].value) else None)
    case DeleteCmd(key, _, _, _) => Removed(Alive(m, key, at))
    case CompactCmd(_) => Done
    case ConsolidateCmd(_, _, _) => Done
    case ClearCmd(now) => Dropped(|AliveKeys(m, now)|)
    case IterateCmd(now) => Keys(AliveKeys(m, now))
  }

  function MapAfter(m: Table, cmd: Command, at: int): Table {
    match cmd
    case SetCmd(key, value, expire, now, _, _) => m[key := Slot(value, ExpiryTime(expire, now))]
    case DeleteCmd(key, _, _, _) => if Alive(m, key, at) then m - {key} else m
    case ClearCmd(_) => map[]
    case _ => m
  }

  /** The map's replies to a run, each call at its first clock reading. */
  function MapReplies(m: Table, cmds: seq<Command>): seq<Reply>
    decreases |cmds|
  {
    if cmds == [] then []
    else [MapReply(m, cmds[0], cmds[0].now)] + MapReplies(MapAfter(m, cmds[0], cmds[0].now), cmds[1..])
  }

  // ------------------------------------------------------------------ what every call does

  /** A call's reply, the map after it, and the directory and what the cache remembers after it. */
  datatype Turn = Turn(reply: Reply, table: Table, s: Moment)

  /** The clock reading that decides a call: a `get` or `delete` that has to build the index again reads the
      clock once more for that, and then the build has already passed over what expired in between. */
  function Decisive(c: LogCache, s: Moment, cmd: Command): int {
    if (cmd.GetCmd? || cmd.DeleteCmd?) && c.Outdated(s, cmd.mono) then cmd.wall else cmd.now
  }

  /** One call of a writer whose log is the only one, with the map for its answers. */
  ghost function React(c: LogCache, m: Table, s: Moment, cmd: Command): Turn
    requires Lawful(c.env)
  {
    var logs, at := s.dir.logs, Decisive(c, s, cmd);
    match cmd
    case SetCmd(key, value, expire, now, later, mono) =>
      var (outcome, s') := c.SetEffect(s, key, value, expire, now, later, mono);
      Turn(if outcome.Stored? then Done else Failed, if outcome.Refused? then m else MapAfter(m, cmd, at), s')
    case GetCmd(key, _, wall, mono) =>
      Turn(if c.Blocked(s, wall, mono) then Failed else MapReply(m, cmd, at), m, s.(known := c.Checking(s, wall, mono)))
    case DeleteCmd(key, now, wall, mono) =>
      var t, k := Tombstone(key, now), c.Checking(s, wall, mono);
      if c.Blocked(s, wall, mono) || (Alive(m, key, at) && !Encodable(c.env, t)) then Turn(Failed, m, s.(known := k))
      else if !Alive(m, key, at) then Turn(MapReply(m, cmd, at), m, s.(known := k))
      else
        var after := Appended(c.env, logs, c.own, t, wall);
        Turn(MapReply(m, cmd, at), MapAfter(m, cmd, at),
             Moment(Dir(after, s.dir.pool), k.(sizes := Some(k.Sig()[c.own := SizeOf(after, c.own)]))))
    case CompactCmd(now) =>
      if c.own !in logs then Turn(Done, m, s)
      else
        var after := logs[c.own := LogFile(CompactLog(c.env, c.own, logs[c.own].data, now), true, now)];
        Turn(Done, m, Moment(Dir(after, s.dir.pool), s.known.(indexed := false, sizes := None)))
    case ConsolidateCmd(prune, now, mono) =>
      Turn(Done, m, Moment(Consolidated(c.env, s.dir, c.own, prune, c.ConflictsIn(logs), now),
                           c.Upkept(s.known, Consolidating, true, mono)))
    case ClearCmd(now) =>
      Turn(MapReply(m, cmd, at), MapAfter(m, cmd, at), Moment(Dir(logs - {c.own}, s.dir.pool), s.known.Forgotten()))
    case IterateCmd(now) => Turn(MapReply(m, cmd, at), m, s)
  }

  /** A whole run: its replies, and the map, directory and memory at its end. */
  datatype Course = Course(replies: seq<Reply>, table: Table, s: Moment)

  ghost function Reactions(c: LogCache, m: Table, s: Moment, cmds: seq<Command>): Course
    requires Lawful(c.env)
    decreases |cmds|
  {
    if cmds == [] then Course([], m, s)
    else
      var first := React(c, m, s, cmds[0]);
      var rest := Reactions(c, first.table, first.s, cmds[1..]);
      rest.(replies := [first.reply] + rest.replies)
  }

  /** A `get` or `delete` that does not raise differs from the map at its first clock reading exactly when the
      index has to be built again and the entry expires before the clock is read for that. */
  lemma {:induction false} DiffersExactly(c: LogCache, m: Table, s: Moment, cmd: Command)
    requires Lawful(c.env) && (cmd.GetCmd? || cmd.DeleteCmd?) && !React(c, m, s, cmd).reply.Failed?
    requires cmd.now <= cmd.wall
    ensures React(c, m, s, cmd).reply != MapReply(m, cmd, cmd.now)
            <==> c.Outdated(s, cmd.mono) && Alive(m, cmd.key, cmd.now) && !Alive(m, cmd.key, cmd.wall)
  {
    hide Lawful, Appended, Indexable, Tombstone, Encodable;
  }

  // ------------------------------------------------------------------ scope of a run

  /** The clock does not run backwards. */
  ghost predicate Timely(clock: int, cmds: seq<Command>)
    decreases |cmds|
  {
    cmds != [] ==> clock <= cmds[0].now <= cmds[0].End() && Timely(cmds[0].End(), cmds[1..])
  }

  /** The run's keys and spilled contents are among those without hash collisions. */
  ghost predicate Covered(env: Env, cmd: Command, keys: set<string>, blobs: set<bytes>) {
    match cmd
    case SetCmd(key, value, _, _, _, _) => key in keys && env.dumps(value) in blobs
    case GetCmd(key, _, _, _) => key in keys
    case DeleteCmd(key, _, _, _) => key in keys
    case _ => true
  }

  ghost predicate Refines(c: LogCache, m: Table, clock: int, keys: set<string>, blobs: set<bytes>)
    reads c, c.dir
  {
    c.Valid() && Inv(c.env, c.prefix, c.own, c.dir.View(), c.index, m, clock, keys, blobs)
  }

  lemma {:induction false} ForgetIndex(env: Env, prefix: string, own: string, dir: Dir, index: Option<PackedIndex>,
                                       m: Table, clock: int, keys: set<string>, blobs: set<bytes>)
    requires Inv(env, prefix, own, dir, index, m, clock, keys, blobs)
    ensures Inv(env, prefix, own, dir, None, m, clock, keys, blobs)
    ensures HashedPool(env, prefix, dir.pool, blobs) && m.Keys <= keys
    ensures own in dir.logs ==> dir.logs[own].readable
    ensures forall x :: x in OwnItems(env, own, dir.logs) ==> x.rec.Time() <= clock
  {
    hide Represents, Leads, OwnItems, CollisionFree, WellShaped;
  }

  // ------------------------------------------------------------------ set

  /** The directory and index as a `set` finds and leaves them, up to the append. */
  lemma {:induction false} AfterAppend(c: LogCache, old_: Dir, index: Option<PackedIndex>, m: Table, clock: int,
                                       keys: set<string>, blobs: set<bytes>, cmd: Command)
    requires cmd.SetCmd? && Lawful(c.env) && clock <= cmd.now <= cmd.later && Covered(c.env, cmd, keys, blobs)
    requires Inv(c.env, c.prefix, c.own, old_, index, m, clock, keys, blobs)
    requires Writable(c.env, c.prefix, c.minFileSize, cmd.key, cmd.value, cmd.expire, cmd.now)
    ensures var r := RecordFor(c.env, c.prefix, c.minFileSize, cmd.key, cmd.value, cmd.expire, cmd.now);
            var pool1 := c.PoolAfter(old_.pool, cmd.value, cmd.now);
            var mid := Dir(Appended(c.env, old_.logs, c.own, r, cmd.later), pool1);
            && mid.logs[c.own].readable
            && Inv(c.env, c.prefix, c.own, mid, None, MapAfter(m, cmd, cmd.now), cmd.later, keys, blobs)
            && forall ix, o :: c.Usable(ix, index, o, old_.logs, cmd.later) ==>
                 Inv(c.env, c.prefix, c.own, mid,
                     Some(FoldedIn(c.env, ix, c.own, r, SizeOf(old_.logs, c.own), FrameLength(c.env, r))),
                     MapAfter(m, cmd, cmd.now), cmd.later, keys, blobs)
  {
    hide Inv, Frame, PoolPath, OwnItems, IsFresh, AllItems, Lawful, HashedPool, Holds, Spilled, Faithful, FoldedIn;
    var env, prefix, own := c.env, c.prefix, c.own;
    var blob := env.dumps(cmd.value);
    var r := RecordFor(env, prefix, c.minFileSize, cmd.key, cmd.value, cmd.expire, cmd.now);
    var e := Slot(cmd.value, ExpiryTime(cmd.expire, cmd.now));
    var pool1 := if |blob| >= c.minFileSize then Spilled(env, prefix, old_.pool, blob, cmd.now) else old_.pool;
    ForgetIndex(env, prefix, own, old_, index, m, clock, keys, blobs);
    SpillKeepsPool(env, prefix, old_.pool, blobs, blob, cmd.now);
    RecordHolds(env, prefix, c.minFileSize, pool1, cmd.key, cmd.value, cmd.expire, cmd.now);
    StoredIsFaithful(env, r);
    ClockAdvances(env, prefix, own, old_, index, m, clock, cmd.later, keys, blobs);
    ForgetIndex(env, prefix, own, old_, index, m, cmd.later, keys, blobs);
    PoolGrows(env, prefix, own, old_, pool1, None, m, cmd.later, keys, blobs);
    SetAppends(env, prefix, own, Dir(old_.logs, pool1), None, m, keys, blobs, r, e, cmd.later);
    forall ix, o | c.Usable(ix, index, o, old_.logs, cmd.later)
      ensures Inv(env, prefix, own, Dir(Appended(env, old_.logs, own, r, cmd.later), pool1),
                  Some(FoldedIn(env, ix, own, r, SizeOf(old_.logs, own), FrameLength(env, r))),
                  MapAfter(m, cmd, cmd.now), cmd.later, keys, blobs)
    {
      UsableLeads(c, ix, index, o, prefix, own, old_, m, cmd.later, keys, blobs);
      PoolGrows(env, prefix, own, old_, pool1, Some(ix), m, cmd.later, keys, blobs);
      SetAppends(env, prefix, own, Dir(old_.logs, pool1), Some(ix), m, keys, blobs, r, e, cmd.later);
    }
  }

  /** A refused `set` may have spilled and built an index; neither shows. */
  lemma {:induction false} AfterRefusal(c: LogCache, old_: Dir, index: Option<PackedIndex>, m: Table, clock: int,
                                        keys: set<string>, blobs: set<bytes>, cmd: Command, outdated: bool, dir': Dir,
                                        index': Option<PackedIndex>)
    requires cmd.SetCmd? && clock <= cmd.later && Covered(c.env, cmd, keys, blobs)
    requires Inv(c.env, c.prefix, c.own, old_, index, m, clock, keys, blobs)
    requires dir'.logs == old_.logs && (dir'.pool == old_.pool
                                        || dir'.pool == c.PoolAfter(old_.pool, cmd.value, cmd.now))
    requires index' == index || (index'.Some? && c.Usable(index'.value, index, outdated, old_.logs, cmd.later))
    ensures Inv(c.env, c.prefix, c.own, dir', index', m, cmd.later, keys, blobs)
  {
    hide Inv, PoolPath, OwnItems, IsFresh, AllItems, HashedPool, Spilled;
    var env, prefix, own := c.env, c.prefix, c.own;
    ForgetIndex(env, prefix, own, old_, index, m, clock, keys, blobs);
    SpillKeepsPool(env, prefix, old_.pool, blobs, env.dumps(cmd.value), cmd.now);
    ClockAdvances(env, prefix, own, old_, index, m, clock, cmd.later, keys, blobs);
    if index' != index {
      UsableLeads(c, index'.value, index, outdated, prefix, own, old_, m, cmd.later, keys, blobs);
    }
    if dir'.pool != old_.pool {
      PoolGrows(env, prefix, own, old_, dir'.pool, index', m, cmd.later, keys, blobs);
    }
  }

  /** What a `set` whose record was appended leaves in the directory. */
  lemma {:induction false} SetLeaves(c: LogCache, s: Moment, cmd: Command)
    requires cmd.SetCmd? && Lawful(c.env)
    requires var (outcome, _) := c.SetEffect(s, cmd.key, cmd.value, cmd.expire, cmd.now, cmd.later, cmd.mono);
             !outcome.Refused?
    ensures var (outcome, s') := c.SetEffect(s, cmd.key, cmd.value, cmd.expire, cmd.now, cmd.later, cmd.mono);
            var r := RecordFor(c.env, c.prefix, c.minFileSize, cmd.key, cmd.value, cmd.expire, cmd.now);
            && Writable(c.env, c.prefix, c.minFileSize, cmd.key, cmd.value, cmd.expire, cmd.now)
            && var logs := Appended(c.env, s.dir.logs, c.own, r, cmd.later);
               && (logs[c.own].readable ==> outcome.Stored?)
               && (outcome.Done().Compacting? ==> logs[c.own].readable)
               && s'.dir == KeptUp(c.env, Dir(logs, c.PoolAfter(s.dir.pool, cmd.value, cmd.now)), c.own,
                                   c.ConflictsIn(logs), outcome.Done(), cmd.later)
               && s'.known.indexed == (outcome.Done().Nothing? || (!logs[c.own].readable))
  {
    hide Lawful, Appended, KeptUp, RecordFor, Encodable, Indexable;
  }

  lemma {:induction false} SetRefuses(c: LogCache, s: Moment, cmd: Command)
    requires cmd.SetCmd? && Lawful(c.env)
    requires var (outcome, _) := c.SetEffect(s, cmd.key, cmd.value, cmd.expire, cmd.now, cmd.later, cmd.mono);
             outcome.Refused?
    ensures var (_, s') := c.SetEffect(s, cmd.key, cmd.value, cmd.expire, cmd.now, cmd.later, cmd.mono);
            s'.dir.logs == s.dir.logs
            && (s'.dir.pool == s.dir.pool || s'.dir.pool == c.PoolAfter(s.dir.pool, cmd.value, cmd.now))
  {
    hide Lawful, Appended, KeptUp, RecordFor, Encodable, Indexable;
  }

  method StepSet(c: LogCache, cmd: Command, ghost m: Table, ghost clock: int, ghost keys: set<string>,
                 ghost blobs: set<bytes>)
    returns (reply: Reply, ghost m': Table)
    requires cmd.SetCmd? && Refines(c, m, clock, keys, blobs)
    requires clock <= cmd.now <= cmd.later && Covered(c.env, cmd, keys, blobs)
    modifies c, c.dir
    ensures Refines(c, m', cmd.later, keys, blobs)
    ensures Turn(reply, m', c.Now()) == React(c, m, old(c.Now()), cmd)
  {
    hide Lawful, Inv, IsFresh, AllItems, Consolidated, CompactLog, Indexable, WellShaped, OwnItems, Frame, PoolPath,
      Spilled, FoldedIn, Appended;
    ghost var s, index := c.Now(), c.index;
    ghost var o := c.Outdated(s, cmd.mono);
    OnlyOwn(c.env, c.prefix, c.own, s.dir, index, m, clock, keys, blobs);
    var outcome := c.Set(cmd.key, cmd.value, cmd.expire, cmd.now, cmd.later, cmd.mono);
    m' := if outcome.Refused? then m else MapAfter(m, cmd, cmd.now);
    reply := if outcome.Stored? then Done else Failed;
    if outcome.Refused? {
      SetRefuses(c, s, cmd);
      hide c.SetEffect;
      AfterRefusal(c, s.dir, index, m, clock, keys, blobs, cmd, o, c.dir.View(), c.index);
      return;
    }
    SetLeaves(c, s, cmd);
    hide c.SetEffect;
    AfterAppend(c, s.dir, index, m, clock, keys, blobs, cmd);
    ghost var r := RecordFor(c.env, c.prefix, c.minFileSize, cmd.key, cmd.value, cmd.expire, cmd.now);
    ghost var mid := Dir(Appended(c.env, s.dir.logs, c.own, r, cmd.later), c.PoolAfter(s.dir.pool, cmd.value, cmd.now));
    assert c.dir.View() == KeptUp(c.env, mid, c.own, c.ConflictsIn(mid.logs), outcome.upkeep, cmd.later);
    match outcome.upkeep {
      case Nothing =>
      case Compacting => CompactionKeeps(c.env, c.prefix, c.own, mid, None, m', cmd.later, keys, blobs);
      case Consolidating =>
        ConsolidationKeeps(c.env, c.prefix, c.own, mid, None, m', cmd.later, keys, blobs, {}, c.ConflictsIn(mid.logs));
    }
  }

  lemma {:induction false} OnlyOwn(env: Env, prefix: string, own: string, dir: Dir, index: Option<PackedIndex>,
                                   m: Table, clock: int, keys: set<string>, blobs: set<bytes>)
    requires Inv(env, prefix, own, dir, index, m, clock, keys, blobs)
    ensures dir.logs.Keys <= {own}
  {
    hide Represents, Leads, OwnItems, CollisionFree, WellShaped, HashedPool;
  }

  // ------------------------------------------------------------------ the other calls

  /** What the index that a `get` or `delete` goes through leads to. */
  lemma {:induction false} UsableReads(c: LogCache, old_: Dir, index: Option<PackedIndex>, m: Table, clock: int,
                                       keys: set<string>, blobs: set<bytes>, key: string, now: int, wall: int,
                                       outdated: bool, ix: PackedIndex)
    requires Lawful(c.env) && Inv(c.env, c.prefix, c.own, old_, index, m, clock, keys, blobs)
    requires clock <= now <= wall && key in keys && c.Usable(ix, index, outdated, old_.logs, wall)
    ensures Inv(c.env, c.prefix, c.own, old_, Some(ix), m, wall, keys, blobs) && WellShaped(ix)
    ensures var loc, at := Index.Find(ix, c.env.digest(key)), if outdated then wall else now;
            && OutcomeAt(c.env, old_.logs, old_.pool, key, loc, now) == EntryOutcome(m, key, at)
            && (LiveAtPlace(c.env, old_.logs, key, loc, now) <==> Alive(m, key, at))
  {
    hide Lawful, Inv, IsFresh, AllItems, WellShaped, OwnItems, OutcomeAt, LiveAtPlace, Alive, EntryOutcome;
    ClockAdvances(c.env, c.prefix, c.own, old_, index, m, clock, now, keys, blobs);
    ClockAdvances(c.env, c.prefix, c.own, old_, index, m, clock, wall, keys, blobs);
    UsableLeads(c, ix, index, outdated, c.prefix, c.own, old_, m, wall, keys, blobs);
    InvShape(c.env, c.prefix, c.own, old_, ix, m, wall, keys, blobs);
    if outdated {
      ForgetIndex(c.env, c.prefix, c.own, old_, index, m, wall, keys, blobs);
      RebuiltIsEntry(c.env, c.prefix, c.own, old_, ix, m, now, wall, keys, blobs, key);
    } else {
      OutcomeIsEntry(c.env, c.prefix, c.own, old_, ix, m, now, keys, blobs, key);
    }
  }

  /** A tombstone folded into the index that a `delete` goes through. */
  lemma {:induction false} UsableDeletes(c: LogCache, old_: Dir, index: Option<PackedIndex>, m: Table, clock: int,
                                         keys: set<string>, blobs: set<bytes>, key: string, now: int, wall: int,
                                         outdated: bool, ix: PackedIndex)
    requires Lawful(c.env) && Inv(c.env, c.prefix, c.own, old_, index, m, clock, keys, blobs)
    requires clock <= now <= wall && key in keys && c.Usable(ix, index, outdated, old_.logs, wall)
    ensures var t := Tombstone(key, now);
            Encodable(c.env, t) ==>
              Inv(c.env, c.prefix, c.own, Dir(Appended(c.env, old_.logs, c.own, t, wall), old_.pool),
                  Some(FoldedIn(c.env, ix, c.own, t, SizeOf(old_.logs, c.own), FrameLength(c.env, t))), m - {key},
                  wall, keys, blobs)
  {
    hide Lawful, Inv, IsFresh, AllItems, WellShaped, OwnItems, Appended, FoldedIn, Faithful;
    var t := Tombstone(key, now);
    ClockAdvances(c.env, c.prefix, c.own, old_, index, m, clock, wall, keys, blobs);
    ForgetIndex(c.env, c.prefix, c.own, old_, index, m, clock, keys, blobs);
    UsableLeads(c, ix, index, outdated, c.prefix, c.own, old_, m, wall, keys, blobs);
    if Encodable(c.env, t) {
      StoredIsFaithful(c.env, t);
      DeleteAppends(c.env, c.prefix, c.own, old_, Some(ix), m, keys, blobs, t, wall);
    }
  }

  lemma {:induction false} InvShape(env: Env, prefix: string, own: string, dir: Dir, ix: PackedIndex, m: Table,
                                    clock: int, keys: set<string>, blobs: set<bytes>)
    requires Inv(env, prefix, own, dir, Some(ix), m, clock, keys, blobs)
    ensures WellShaped(ix)
  {
    hide EntryAt;
  }

  method StepGet(c: LogCache, cmd: Command, ghost m: Table, ghost clock: int, ghost keys: set<string>,
                 ghost blobs: set<bytes>)
    returns (reply: Reply)
    requires cmd.GetCmd? && Refines(c, m, clock, keys, blobs)
    requires clock <= cmd.now <= cmd.wall && Covered(c.env, cmd, keys, blobs)
    modifies c, c.dir
    ensures Refines(c, m, cmd.wall, keys, blobs)
    ensures Turn(reply, m, c.Now()) == React(c, m, old(c.Now()), cmd)
  {
    hide Lawful, Inv, IsFresh, AllItems, Indexable, WellShaped, OwnItems, OutcomeAt, LiveAtPlace, Sizes;
    ghost var old_, index := c.dir.View(), c.index;
    ghost var o := c.Outdated(c.Now(), cmd.mono);
    ClockAdvances(c.env, c.prefix, c.own, old_, index, m, clock, cmd.wall, keys, blobs);
    forall ix | c.Usable(ix, index, o, old_.logs, cmd.wall)
      ensures Inv(c.env, c.prefix, c.own, old_, Some(ix), m, cmd.wall, keys, blobs) && WellShaped(ix)
      ensures OutcomeAt(c.env, old_.logs, old_.pool, cmd.key, Index.Find(ix, c.env.digest(cmd.key)), cmd.now)
              == EntryOutcome(m, cmd.key, if o then cmd.wall else cmd.now)
    {
      UsableReads(c, old_, index, m, clock, keys, blobs, cmd.key, cmd.now, cmd.wall, o, ix);
    }
    var answer, retried := c.Get(cmd.key, cmd.now, cmd.wall, cmd.mono, Dir(map[], map[]), cmd.now, cmd.wall, cmd.mono);
    assert !retried;
    match answer {
      case Raises => reply := Failed;
      case Default => reply := Found(None);
      case Value(v) => reply := Found(Some(v));
    }
  }

  method StepDelete(c: LogCache, cmd: Command, ghost m: Table, ghost clock: int, ghost keys: set<string>,
                    ghost blobs: set<bytes>)
    returns (reply: Reply, ghost m': Table)
    requires cmd.DeleteCmd? && Refines(c, m, clock, keys, blobs)
    requires clock <= cmd.now <= cmd.wall && Covered(c.env, cmd, keys, blobs)
    modifies c, c.dir
    ensures Refines(c, m', cmd.wall, keys, blobs)
    ensures Turn(reply, m', c.Now()) == React(c, m, old(c.Now()), cmd)
  {
    hide Lawful, Inv, IsFresh, AllItems, Indexable, WellShaped, OwnItems, LiveAtPlace, Appended, FoldedIn, Faithful,
      Sizes;
    ghost var s, old_, index := c.Now(), c.dir.View(), c.index;
    ghost var env, prefix, own, t := c.env, c.prefix, c.own, Tombstone(cmd.key, cmd.now);
    ghost var o := c.Outdated(s, cmd.mono);
    ghost var at := if o then cmd.wall else cmd.now;
    ClockAdvances(env, prefix, own, old_, index, m, clock, cmd.wall, keys, blobs);
    forall ix | c.Usable(ix, index, o, old_.logs, cmd.wall)
      ensures Inv(env, prefix, own, old_, Some(ix), m, cmd.wall, keys, blobs) && WellShaped(ix)
      ensures LiveAtPlace(env, old_.logs, cmd.key, Index.Find(ix, env.digest(cmd.key)), cmd.now)
              <==> Alive(m, cmd.key, at)
      ensures Encodable(env, t) ==>
                Inv(env, prefix, own, Dir(Appended(env, old_.logs, own, t, cmd.wall), old_.pool),
                    Some(FoldedIn(env, ix, own, t, SizeOf(old_.logs, own), FrameLength(env, t))), m - {cmd.key},
                    cmd.wall, keys, blobs)
    {
      UsableReads(c, old_, index, m, clock, keys, blobs, cmd.key, cmd.now, cmd.wall, o, ix);
      UsableDeletes(c, old_, index, m, clock, keys, blobs, cmd.key, cmd.now, cmd.wall, o, ix);
    }
    var ok, deleted := c.Delete(cmd.key, cmd.now, cmd.wall, cmd.mono);
    m' := if deleted then m - {cmd.key} else m;
    reply := if ok then Removed(deleted) else Failed;
  }

  method StepPass(c: LogCache, cmd: Command, ghost m: Table, ghost clock: int, ghost keys: set<string>,
                  ghost blobs: set<bytes>)
    returns (reply: Reply, ghost m': Table)
    requires !cmd.Indexes() && Refines(c, m, clock, keys, blobs)
    requires clock <= cmd.now
    modifies c, c.dir
    ensures Refines(c, m', cmd.now, keys, blobs)
    ensures Turn(reply, m', c.Now()) == React(c, m, old(c.Now()), cmd) && !reply.Failed?
  {
    hide Lawful, Inv, AllItems, Consolidated, CompactLog, WellShaped, Kept, ScanLog, Indexable;
    ghost var old_, index := c.dir.View(), c.index;
    ghost var env, prefix, own := c.env, c.prefix, c.own;
    OnlyOwn(env, prefix, own, old_, index, m, clock, keys, blobs);
    ClockAdvances(env, prefix, own, old_, index, m, clock, cmd.now, keys, blobs);
    ForgetIndex(env, prefix, own, old_, index, m, cmd.now, keys, blobs);
    m' := MapAfter(m, cmd, cmd.now);
    match cmd
    case CompactCmd(now) =>
      var _ := c.CompactOwn(now);
      if own in old_.logs {
        CompactionKeeps(env, prefix, own, old_, index, m, now, keys, blobs);
      }
      reply := Done;
    case ConsolidateCmd(prune, now, mono) =>
      c.Consolidate(prune, now, mono);
      ConsolidationKeeps(env, prefix, own, old_, index, m, now, keys, blobs, prune, c.ConflictsIn(old_.logs));
      reply := Done;
    case ClearCmd(now) =>
      var n := c.Clear(now);
      ClearCounts(env, prefix, own, old_, index, m, now, keys, blobs);
      ClearKeeps(env, prefix, own, old_, index, m, now, keys, blobs);
      reply := Dropped(n);
    case IterateCmd(now) =>
      var records := c.IterLive(now);
      SoleOf(env, prefix, own, old_, index, m, now, keys, blobs);
      assert IsKept(OwnItems(env, own, old_.logs), records, now);
      KeptKeys(env, prefix, own, old_, index, m, now, keys, blobs, records);
      reply := Keys(KeysOf(records));
  }

  lemma {:induction false} SoleOf(env: Env, prefix: string, own: string, dir: Dir, index: Option<PackedIndex>, m: Table,
                                  clock: int, keys: set<string>, blobs: set<bytes>)
    requires Inv(env, prefix, own, dir, index, m, clock, keys, blobs)
    ensures AllItems(env, dir.logs) == OwnItems(env, own, dir.logs)
  {
    SoleItems(env, own, dir.logs);
  }

  lemma {:induction false} ClearCounts(env: Env, prefix: string, own: string, dir: Dir, index: Option<PackedIndex>,
                                       m: Table, now: int, keys: set<string>, blobs: set<bytes>)
    requires Lawful(env) && Inv(env, prefix, own, dir, index, m, now, keys, blobs)
    ensures (if own in dir.logs then |Kept(env, own, dir.logs[own].data, now)| else 0) == |AliveKeys(m, now)|
  {
    hide Inv, Lawful, ScanLog, LiveWinners, AliveKeys;
    var items := OwnItems(env, own, dir.logs);
    LiveWinnersFacts(items, now);
    KeptKeys(env, prefix, own, dir, index, m, now, keys, blobs, LiveWinners(items, now));
    NothingLives(now);
  }

  lemma {:induction false} NothingLives(now: int)
    ensures LiveWinners([], now) == []
  {}

  // ------------------------------------------------------------------ whole runs

  /** The last clock reading of a run. */
  function EndOf(clock: int, cmds: seq<Command>): int {
    if cmds == [] then clock else cmds[|cmds| - 1].End()
  }

  /** Lone-writer refinement: any run of calls, through overlay, reused index, spilling, automatic and
      explicit compaction and consolidation, replies exactly what `Reactions` says of the plain map, leaves
      exactly the directory and the memory that it says, and may go on from there. */
  method Run(c: LogCache, cmds: seq<Command>, ghost m: Table, ghost clock: int, ghost keys: set<string>,
             ghost blobs: set<bytes>)
    returns (replies: seq<Reply>, ghost m': Table)
    requires Refines(c, m, clock, keys, blobs) && Timely(clock, cmds)
    requires forall cmd :: cmd in cmds ==> Covered(c.env, cmd, keys, blobs)
    modifies c, c.dir
    ensures Refines(c, m', EndOf(clock, cmds), keys, blobs)
    ensures Course(replies, m', c.Now()) == Reactions(c, m, old(c.Now()), cmds)
    decreases |cmds|
  {
    hide Inv, Lawful, React;
    if cmds == [] {
      return [], m;
    }
    var cmd := cmds[0];
    assert cmd in cmds;
    var reply: Reply;
    ghost var m1 := m;
    match cmd {
      case SetCmd(_, _, _, _, _, _) => reply, m1 := StepSet(c, cmd, m, clock, keys, blobs);
      case GetCmd(_, _, _, _) => reply := StepGet(c, cmd, m, clock, keys, blobs);
      case DeleteCmd(_, _, _, _) => reply, m1 := StepDelete(c, cmd, m, clock, keys, blobs);
      case _ => reply, m1 := StepPass(c, cmd, m, clock, keys, blobs);
    }
    var rest;
    rest, m' := Run(c, cmds[1..], m1, cmd.End(), keys, blobs);
    replies := [reply] + rest;
  }

  /** An empty directory and a new cache represent the empty map, so a run may start there. */
  lemma {:induction false} StartsEmpty(c: LogCache, clock: int, keys: set<string>, blobs: set<bytes>)
    requires c.Valid() && c.index.None? && c.dir.logs == map[] && c.dir.pool == map[]
    requires CollisionFree(c.env, keys)
    requires forall a, b :: a in blobs && b in blobs && c.env.sha(a) == c.env.sha(b) ==> a == b
    ensures Refines(c, map[], clock, keys, blobs)
  {
    forall key
      ensures Represents(c.env, [], map[], map[], key, clock)
    { NoItems(key); }
  }
}
