/** Reads of one cache over shared logs that do not answer as a full scan does, and a read that need not. */
module SharedLimits {
  import opened Bytes
  import opened Options
  import opened Order
  import opened Pickle
  import opened Frames
  import opened ScanFacts
  import opened Fold
  import opened Store
  import opened Index
  import opened Reading
  import opened Compaction
  import opened LogCaches
  import opened LoneWriter
  import opened LoneWriterRoom
  import opened SharedReads
  import opened Hypotheses
  import opened MaintenanceLimits

  // ------------------------------------------------------------------ a failed build

  /** The longest blob that a frame header can announce. */
  function LongBlob(): bytes {
    seq(U32 - 1, i => if i == 0 then PROTO else 0)
  }

  function LongFrame(): bytes {
    [255, 255, 255, 255] + LongBlob()
  }

  /** The small environment, in which that blob loads too. */
  function LongEnv(): Env {
    SmallEnv().(load := (b: bytes) => if |b| == U32 - 1 then Loaded(TupleOf(Small(107, 1, Plain)), U32 - 1)
                                      else SmallLoad(b))
  }

  lemma {:induction false} LongIsLawful()
    ensures Lawful(LongEnv())
  {
    SmallIsLawful();
    SmallIsSmall(107, 1, Plain);
    var env := LongEnv();
    forall o | env.storable(o)
      ensures env.load(env.dumps(o)) == Loaded(o, |env.dumps(o)|) && |env.dumps(o)| > 0 && env.dumps(o)[0] == PROTO
    { SmallReloads(o); }
    forall b: bytes | env.load(b).Loaded?
      ensures env.storable(env.load(b).obj) && |env.dumps(env.load(b).obj)| < U32
    {
      if |b| != U32 - 1 && b != NilBlob() { SmallIsSmall(b[1], b[2], KindOf(b[3])); }
    }
  }

  lemma {:induction false} FullHeader()
    ensures UnpackBE([255, 255, 255, 255]) == U32 - 1
  {
    var b: bytes := [255, 255, 255, 255];
    assert b[..3] == [255, 255, 255] && b[..3][..2] == [255, 255] && b[..3][..2][..1] == [255]
           && b[..3][..2][..1][..0] == [];
    assert UnpackBE([255]) == 255;
    assert UnpackBE([255, 255]) == 256 * UnpackBE([255]) + 255;
    assert UnpackBE([255, 255, 255]) == 256 * UnpackBE([255, 255]) + 255;
  }

  lemma {:induction false} LongScans()
    ensures Walk(LongEnv(), LongFrame(), 0) == [Span(Small(107, 1, Plain), 0, U32 + 3)]
  {
    EnvelopeRoundTrip(Small(107, 1, Plain));
    FullHeader();
    var env, data := LongEnv(), LongFrame();
    assert data[0..HEADER] == [255, 255, 255, 255] && data[HEADER..U32 + 3] == LongBlob();
    assert ParseBlob(env, LongBlob()) == Some(Small(107, 1, Plain));
    assert ParseFrame(env, data, 0) == Some(Span(Small(107, 1, Plain), 0, U32 + 3));
    hide LongEnv, ParseFrame, LongFrame, Walk;
    OverFrame(env, data, 0);
    assert |data| == U32 + 3 by { LongLength(); }
    WalkAtEnd(env, data);
  }

  lemma {:induction false} LongLength()
    ensures |LongFrame()| == U32 + 3
  {}

  function LongLogs(mtime: int): map<string, LogFile> {
    map["b.log" := LogFile(LongFrame(), true, mtime)]
  }

  /** The only record of the logs, and it does not fit an index entry. */
  lemma {:induction false} LongItems(mtime: int, now: int)
    ensures AllItems(LongEnv(), LongLogs(mtime)) == [Located(Small(107, 1, Plain), "b.log", 0, U32 + 3)]
    ensures !Indexable(LongEnv(), LongLogs(mtime), now)
  {
    LongScans();
    hide LongEnv, LongFrame, Walk;
    var env, logs := LongEnv(), LongLogs(mtime);
    assert logs.Keys == {"b.log"};
    OneName("b.log");
    var x := Located(Small(107, 1, Plain), "b.log", 0, U32 + 3);
    assert ["b.log"][..0] == [];
    assert Gather(env, logs, []) == [];
    assert Gather(env, logs, ["b.log"]) == [] + ScanLog(env, "b.log", LongFrame());
    assert ScanLog(env, "b.log", LongFrame()) == [x];
    LongMerge(env, x);
  }

  lemma {:induction false} LongMerge(env: Env, x: Located)
    ensures Merge(env, [x]) == map[env.digest(x.rec.key) := x]
  {
    assert [x][..0] == [];
  }

  lemma {:induction false} LongAnswer(mtime: int, pool: map<string, PoolFile>, now: int)
    ensures ScanAnswer(LongEnv(), LongLogs(mtime), pool, "k", now) == Some(Nil)
  {
    LongItems(mtime, now);
    hide LongEnv, LongLogs, AllItems;
    var x := Located(Small(107, 1, Plain), "b.log", 0, U32 + 3);
    assert [x][..0] == [] && [107 as char] == "k";
    assert Winner([x], "k") == Some(x);
  }

  lemma {:induction false} NothingThere(env: Env)
    ensures Indexable(env, map[], 0) && AllItems(env, map[]) == [] && Sizes(map[]) == map[]
    ensures forall key, pool, now :: ScanAnswer(env, map[], pool, key, now) == None
  {
    NoNames();
  }

  ghost predicate FindsNothing(c: LogCache)
    reads c
  {
    c.index.Some? && WellShaped(c.index.value) && Index.Find(c.index.value, c.env.digest("k")).None?
  }

  lemma {:induction false} FreshFindsNothing(c: LogCache, ix: PackedIndex)
    requires IsFresh(c.env, [], 0, ix)
    ensures WellShaped(ix) && Index.Find(ix, c.env.digest("k")).None?
  {
    hide WellShaped, Index.Find;
  }

  /** The first read builds an index of nothing. */
  method BuildsNothing(c: LogCache) returns (answer: Answer)
    requires c.Valid() && c.index.None? && c.dir.logs == map[] && c.dir.pool == map[] && c.indexTtl > 2
    modifies c, c.dir
    ensures c.Valid() && c.dir.View() == old(c.dir.View()) && answer == Default && FindsNothing(c)
    ensures c.Knows() == Known(true, Some(map[]), Some(0), old(c.Knows()).passed)
  {
    NothingThere(c.env);
    hide AllItems, Indexable, IsFresh, Lawful, ServedFrom, ScanAnswer, CollisionFree, WellShaped, Index.Find;
    forall ix | c.Usable(ix, c.index, true, map[], 0)
      ensures WellShaped(ix) && Index.Find(ix, c.env.digest("k")).None?
    { FreshFindsNothing(c, ix); }
    var retried;
    answer, retried := c.Get("k", 0, 0, 0, c.dir.View(), 0, 0, 0);
  }

  /** A read that has to build it again and cannot. */
  method CannotBuild(c: LogCache, mono: int) returns (answer: Answer)
    requires c.Valid() && c.env == LongEnv() && c.dir.logs == LongLogs(0) && FindsNothing(c)
    requires c.Knows().indexed && c.Knows().sizes == Some(map[]) && c.Knows().checked == Some(0) && mono >= c.indexTtl
    modifies c, c.dir
    ensures c.Valid() && c.dir.View() == old(c.dir.View()) && answer == Raises && FindsNothing(c)
    ensures c.Knows() == old(c.Knows()).(checked := Some(mono))
  {
    LongItems(0, 5);
    GrewFromNothing();
    hide AllItems, Indexable, IsFresh, Lawful, ServedFrom, ScanAnswer, CollisionFree, WellShaped, Index.Find, LongEnv,
      LongLogs, Sizes;
    var retried;
    answer, retried := c.Get("k", 5, 5, mono, c.dir.View(), 5, 5, mono);
  }

  /** A read through the index at hand. */
  method ReadsOld(c: LogCache, mono: int) returns (answer: Answer)
    requires c.Valid() && FindsNothing(c) && c.Knows().checked.Some? && mono - c.Knows().checked.value < c.indexTtl
    requires c.indexTtl > 0
    modifies c, c.dir
    ensures c.dir.View() == old(c.dir.View()) && answer == Default
  {
    hide AllItems, Indexable, IsFresh, Lawful, ServedFrom, ScanAnswer, CollisionFree, WellShaped, Index.Find, Sizes;
    var retried;
    answer, retried := c.Get("k", 5, 5, mono, c.dir.View(), 5, 5, mono);
  }

  /** A call that cannot build the index raises, and the next one within the TTL does not: it goes through the old
      index and misses a key that a full scan finds. */
  method MissesAfterRaise(c: LogCache) returns (first: Answer, second: Answer, third: Answer)
    requires c.Valid() && c.index.None? && c.dir.logs == map[] && c.dir.pool == map[]
    requires c.env == LongEnv() && c.indexTtl > 2
    modifies c, c.dir
    ensures first == Default && second == Raises && third == Default
    ensures c.dir.logs == LongLogs(0) && c.ScanAnswerHere(c.dir.logs, c.dir.pool, "k", 5) == Value(Nil)
  {
    LongAnswer(0, map[], 5);
    hide LongEnv, LongLogs, Lawful, ScanAnswer, WellShaped, FindsNothing;
    first := BuildsNothing(c);
    c.dir.logs := LongLogs(0);
    second := CannotBuild(c, c.indexTtl);
    third := ReadsOld(c, c.indexTtl + 1);
  }

  lemma {:induction false} GrewFromNothing()
    ensures Sizes(LongLogs(0)) != map[]
  {
    assert "b.log" in Sizes(LongLogs(0));
  }

  // ------------------------------------------------------------------ clocks that are not in step

  /** A peer's log with one record of "k", whose store time is 2. */
  function PeerLog(): map<string, LogFile> {
    HypothesesCanHold(107, 2, Plain);
    map["b.log" := LogFile(FrameAll(SmallEnv(), [Small(107, 2, Plain)]), true, 0)]
  }

  /** A newer record in one log and an older one in another. */
  lemma {:induction false} NewerIsServed(env: Env, logs: map<string, LogFile>, own: string, peer: string, newer: Record,
                                         older: Record, pool: map<string, PoolFile>, now: int)
    requires Faithful(env, newer) && Faithful(env, older) && own != peer
    requires newer.key == older.key && older.Time() < newer.Time()
    requires newer.LiveAt(now) && !newer.Spilled() && newer.value.Inline?
    requires SameReadable(TwoLogs(env, own, peer, newer, older), logs)
    ensures ScanAnswer(env, logs, pool, newer.key, now) == Some(newer.value.v)
  {
    NewerWins(env, own, peer, newer, older);
    ServesInline(env, pool, newer, now);
    hide Faithful, AllItems, Winner, TwoLogs, SameReadable, Serve;
    SameLogsSameWinner(env, TwoLogs(env, own, peer, newer, older), logs, newer.key);
  }

  lemma {:induction false} OneFrame(env: Env, r: Record)
    requires Faithful(env, r)
    ensures FrameAll(env, [r]) == Frame(env, r) && |Frame(env, r)| == FrameLength(env, r)
  {
    FrameAllStep(env, [r]);
    assert [r][1..] == [] && FrameAll(env, []) == [];
  }

  /** Our tombstone beside the peer's record. */
  lemma {:induction false} AppendedIsTwo(env: Env, logs: map<string, LogFile>, newer: Record, older: Record)
    requires Faithful(env, newer) && Faithful(env, older)
    requires logs == map["b.log" := LogFile(FrameAll(env, [newer]), true, 0)]
    ensures SameReadable(TwoLogs(env, "b.log", "a.log", newer, older), Appended(env, logs, "a.log", older, 1))
  {
    OneFrame(env, older);
    hide Faithful, FrameAll, Frame;
  }

  function LoneLog(env: Env, log: string, r: Record): map<string, LogFile>
    requires Faithful(env, r)
  {
    map[log := LogFile(FrameAll(env, [r]), true, 0)]
  }

  /** What a scan finds in the peer's log alone. */
  lemma {:induction false} PeerMembers(env: Env, log: string, r: Record)
    requires Faithful(env, r)
    ensures forall x :: x in AllItems(env, LoneLog(env, log, r)) ==>
              x.rec == r && x.log == log && x in ScanLog(env, log, FrameAll(env, [r]))
  {
    OneRecord(env, log, r);
    hide Faithful, AllItems, FrameAll, ScanLog;
    AllItemsMembers(env, LoneLog(env, log, r));
  }

  lemma {:induction false} PeerIndexable(env: Env, log: string, r: Record, now: int)
    requires Faithful(env, r) && FrameLength(env, r) < U32
    ensures Indexable(env, LoneLog(env, log, r), now)
  {
    OneFrame(env, r);
    ScanLogMembers(env, log, FrameAll(env, [r]));
    hide Faithful, FrameAll, Frame, ScanLog, Indexable, FrameLength, ParseFrame;
    forall x | x in ScanLog(env, log, FrameAll(env, [r]))
      ensures x.end - x.start <= |FrameAll(env, [r])|
    { InsideLog(env, FrameAll(env, [r]), x); }
    NarrowIsIndexable(env, LoneLog(env, log, r), log, now);
  }

  lemma {:induction false} PeerAnswers(env: Env, log: string, r: Record, now: int)
    requires Faithful(env, r) && r.LiveAt(now)
    ensures AnswerAt(AllItems(env, LoneLog(env, log, r)), r.key, now).Some?
  {
    PeerAlone(env, log, r);
    hide Faithful, AllItems, Winner, FrameAll;
  }

  lemma {:induction false} InsideLog(env: Env, data: bytes, x: Located)
    requires ParseFrame(env, data, x.start) == Some(Span(x.rec, x.start, x.end))
    ensures x.start <= x.end <= |data|
  {}

  /** A `delete` of the only key of a prefix, through a new index, which has then forgotten the key. */
  method Deletes(c: LogCache, now: int, mono: int) returns (deleted: bool)
    requires c.Valid() && c.index.None? && Indexable(c.env, c.dir.logs, now)
    requires AnswerAt(AllItems(c.env, c.dir.logs), "k", now).Some? && Encodable(c.env, Tombstone("k", now))
    requires forall x :: x in AllItems(c.env, c.dir.logs) ==> x.rec.key == "k"
    modifies c, c.dir
    ensures c.Valid() && deleted && FindsNothing(c) && c.dir.pool == old(c.dir.pool)
    ensures c.dir.logs == Appended(c.env, old(c.dir.logs), c.own, Tombstone("k", now), now)
    ensures c.Knows().checked == Some(mono)
  {
    OneKey(c.env);
    hide AllItems, Indexable, IsFresh, Lawful, Winner, WellShaped, FindFrom, Appended, LiveAtPlace, FrameLength, Sizes,
      Encodable, CollisionFree;
    assert Distinguishes(c.env, {"k"}, "k", AllItems(c.env, c.dir.logs));
    var ok;
    ok, deleted := c.Delete("k", now, now, mono);
  }

  lemma {:induction false} PeerFacts()
    ensures Indexable(SmallEnv(), PeerLog(), 1) && AnswerAt(AllItems(SmallEnv(), PeerLog()), "k", 1).Some?
    ensures forall x :: x in AllItems(SmallEnv(), PeerLog()) ==> x.rec.key == "k"
  {
    assert [107 as char] == "k";
    HypothesesCanHold(107, 2, Plain);
    SmallFrameLength(107, 2, Plain);
    hide SmallEnv, AllItems, Indexable, Lawful, Winner, Faithful, FrameAll, FrameLength, ScanLog;
    PeerMembers(SmallEnv(), "b.log", Small(107, 2, Plain));
    PeerIndexable(SmallEnv(), "b.log", Small(107, 2, Plain), 1);
    PeerAnswers(SmallEnv(), "b.log", Small(107, 2, Plain), 1);
  }

  lemma {:induction false} TombstoneIsOlder(pool: map<string, PoolFile>)
    ensures Encodable(SmallEnv(), Tombstone("k", 1))
    ensures ScanAnswer(SmallEnv(), Appended(SmallEnv(), PeerLog(), "a.log", Tombstone("k", 1), 1), pool, "k", 3)
            == Some(Nil)
  {
    assert [107 as char] == "k";
    HypothesesCanHold(107, 2, Plain);
    HypothesesCanHold(107, 1, Deletion);
    SetRecordIsSmall(107, 1, 3);
    hide SmallEnv, Lawful, ScanAnswer, Appended, Faithful, FrameAll, Encodable, TwoLogs, SameReadable;
    AppendedIsTwo(SmallEnv(), PeerLog(), Small(107, 2, Plain), Small(107, 1, Deletion));
    NewerIsServed(SmallEnv(), Appended(SmallEnv(), PeerLog(), "a.log", Tombstone("k", 1), 1), "b.log", "a.log",
                  Small(107, 2, Plain), Small(107, 1, Deletion), pool, 3);
  }

  /** With clocks out of step a `delete` at 1 of a record made at 2 answers True, and the next read through the index
      misses the key, while a full scan still finds the peer's record. */
  method DeleteIsOlder(c: LogCache) returns (deleted: bool, answer: Answer)
    requires c.Valid() && c.index.None? && c.dir.logs == PeerLog() && c.own == "a.log"
    requires c.env == SmallEnv() && c.indexTtl > 2
    modifies c, c.dir
    ensures deleted && answer == Default && c.ScanAnswerHere(c.dir.logs, c.dir.pool, "k", 3) == Value(Nil)
  {
    hide SmallEnv, PeerLog, AllItems, Indexable, Lawful, ScanAnswer, Winner, WellShaped, Appended, FindsNothing,
      Encodable;
    PeerFacts();
    TombstoneIsOlder(c.dir.pool);
    deleted := Deletes(c, 1, 0);
    answer := ReadsOld(c, 1);
  }

  lemma {:induction false} OneKey(env: Env)
    ensures CollisionFree(env, {"k"})
  {}

  lemma {:induction false} SmallFrameLength(letter: byte, time: byte, kind: Kind)
    ensures FrameLength(SmallEnv(), Small(letter, time, kind)) == 8
  {
    SmallIsSmall(letter, time, kind);
  }

  // ------------------------------------------------------------------ within the TTL

  /** A read within the TTL of the last look at the disk does not look again, whatever has been appended: it goes
      through the index at hand, and leaves it. */
  method LooksNoMore(c: LogCache, key: string, now: int, wall: int, m0: int, meanwhile: Dir, later: int, last: int,
                     m1: int)
    returns (first: Answer, second: Answer, again: bool)
    requires c.Valid() && c.index.None? && m1 < m0 + c.indexTtl && c.indexTtl > 0
    modifies c, c.dir
    ensures c.Valid()
    ensures first != Raises && !again ==> second != Raises && c.Knows().checked == Some(m0)
  {
    hide AllItems, Indexable, IsFresh, Lawful, ServedFrom, ScanAnswer, WellShaped, Sizes, OutcomeAt, CollisionFree;
    var retried;
    first, retried := c.Get(key, now, wall, m0, c.dir.View(), now, wall, m0);
    c.dir.logs, c.dir.pool := meanwhile.logs, meanwhile.pool;
    second, again := c.Get(key, later, last, m1, c.dir.View(), later, last, m1);
  }
}
