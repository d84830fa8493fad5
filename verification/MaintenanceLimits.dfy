/** Records that come back: a newer record that compaction or consolidation drops no longer shadows an older one
    in a peer's log. */
module MaintenanceLimits {
  import opened Bytes
  import opened Options
  import opened Order
  import opened Pickle
  import opened Frames
  import opened ScanFacts
  import opened Fold
  import opened Store
  import opened Reading
  import opened Compaction
  import opened CompactionScope
  import opened Consolidation
  import opened ConsolidationScope
  import opened Hypotheses

  /** Our log holds one record of a key, a peer's another, both readable. */
  function TwoLogs(env: Env, own: string, peer: string, newer: Record, older: Record): map<string, LogFile>
    requires Faithful(env, newer) && Faithful(env, older)
  {
    map[own := LogFile(FrameAll(env, [newer]), true, 0), peer := LogFile(FrameAll(env, [older]), true, 0)]
  }

  lemma {:induction false} OneRecord(env: Env, log: string, r: Record)
    requires Faithful(env, r)
    ensures var items := ScanLog(env, log, FrameAll(env, [r]));
            |items| == 1 && items[0].rec == r && items[0].log == log
  {
    hide FrameAll, Walk, Faithful;
    LogRoundTrip(env, [r]);
    var w := Walk(env, FrameAll(env, [r]), 0);
    assert |RecordsOf(w)| == 1 && RecordsOf(w)[0] == r;
  }

  /** A scan of all logs finds in a log with one record that record. */
  lemma {:induction false} OnlyRecord(env: Env, logs: map<string, LogFile>, n: string, r: Record) returns (x: Located)
    requires Faithful(env, r) && n in logs && logs[n].readable && logs[n].data == FrameAll(env, [r])
    ensures x.rec == r && x.log == n && x in AllItems(env, logs)
    ensures forall z :: z in AllItems(env, logs) && z.log == n ==> z == x
  {
    OneRecord(env, n, r);
    hide ScanLog, FrameAll, AllItems, Faithful;
    AllItemsMembers(env, logs);
    var items := ScanLog(env, n, FrameAll(env, [r]));
    x := items[0];
    forall z | z in AllItems(env, logs) && z.log == n
      ensures z == x
    { assert z in items; }
  }

  lemma {:induction false} ItemsHaveLogs(env: Env, logs: map<string, LogFile>)
    ensures forall z :: z in AllItems(env, logs) ==> z.log in logs && logs[z.log].readable
  {
    hide ScanLog, AllItems;
    AllItemsMembers(env, logs);
  }

  /** The scan sees the two records, and the newer wins. */
  lemma {:induction false} NewerWins(env: Env, own: string, peer: string, newer: Record, older: Record)
    requires Faithful(env, newer) && Faithful(env, older) && own != peer
    requires newer.key == older.key && older.Time() < newer.Time()
    ensures var items := AllItems(env, TwoLogs(env, own, peer, newer, older));
            var w := Winner(items, newer.key);
            && TiesIdentical(items) && w.Some? && w.value.rec == newer && w.value.log == own
  {
    hide FrameAll, AllItems, Winner, Faithful;
    var logs := TwoLogs(env, own, peer, newer, older);
    var items := AllItems(env, logs);
    var x := OnlyRecord(env, logs, own, newer);
    var y := OnlyRecord(env, logs, peer, older);
    ItemsHaveLogs(env, logs);
    hide TwoLogs;
    assert forall z :: z in items ==> z == x || z == y;
    WinnerByTime(items, x);
    WinnerHasKey(items, newer.key);
  }

  lemma {:induction false} LoneRecordWins(env: Env, logs: map<string, LogFile>, n: string, r: Record)
    requires Faithful(env, r) && n in logs && logs[n].readable && logs[n].data == FrameAll(env, [r])
    requires forall z :: z in AllItems(env, logs) ==> z.log == n
    ensures var w := Winner(AllItems(env, logs), r.key); w.Some? && w.value.rec == r
  {
    hide FrameAll, AllItems, Winner, Faithful;
    var x := OnlyRecord(env, logs, n, r);
    WinnerByTime(AllItems(env, logs), x);
  }

  lemma {:induction false} NothingGone(env: Env, dir: Dir, own: string, now: int)
    ensures Gone(env, dir, own, {}, {}, now) == {}
  {
    hide KeepOf, Ours, AbsentSources;
  }

  lemma {:induction false} TwoLogsRead(env: Env, own: string, peer: string, newer: Record, older: Record)
    requires Faithful(env, newer) && Faithful(env, older) && own != peer
    ensures var logs := TwoLogs(env, own, peer, newer, older);
            && Unread(logs) == {}
            && Survivors(logs, own, {}) == map[peer := LogFile(FrameAll(env, [older]), true, 0)]
  {
    hide FrameAll, Faithful;
  }

  /** What does not come back from the record itself is a miss. */
  lemma {:induction false} ServesNothing(env: Env, r: Record, now: int)
    requires !r.LiveAt(now) || r.Spilled()
    ensures Serve(env, map[], r, now) == None
  {}

  /** Our log is where the newer record was, and nothing else goes. */
  lemma {:induction false} NewerIsDropped(env: Env, own: string, peer: string, newer: Record, older: Record, now: int)
    requires Lawful(env) && Faithful(env, newer) && Faithful(env, older) && own != peer
    requires newer.key == older.key && older.Time() < newer.Time() && (!newer.LiveAt(now) || newer.Spilled())
    ensures var dir := Dir(TwoLogs(env, own, peer, newer, older), map[]);
            && Drops(env, dir, own, {}, {}, now, newer.key) && Gone(env, dir, own, {}, {}, now) == {}
            && ScanAnswer(env, dir.logs, map[], newer.key, now) == None
  {
    NewerWins(env, own, peer, newer, older);
    TwoLogsRead(env, own, peer, newer, older);
    NothingGone(env, Dir(TwoLogs(env, own, peer, newer, older), map[]), own, now);
    ServesNothing(env, newer, now);
    hide AllItems, Winner, Faithful, Lawful, FrameAll, TiesIdentical, Gone, TwoLogs, Serve, Survivors, Unread;
  }

  /** Without pruning and without conflict copies: when our newer record is dead, or waits for a spill that is
      not there, the pass drops it and the peer's older value is served. */
  lemma {:induction false} OlderComesBack(env: Env, own: string, peer: string, newer: Record, older: Record, now: int)
    requires Lawful(env) && Faithful(env, newer) && Faithful(env, older) && own != peer
    requires newer.key == older.key && older.Time() < newer.Time() && (!newer.LiveAt(now) || newer.Spilled())
    requires older.LiveAt(now) && !older.Spilled() && older.value.Inline?
    ensures var dir := Dir(TwoLogs(env, own, peer, newer, older), map[]);
            var after := Consolidated(env, dir, own, {}, {}, now);
            && ScanAnswer(env, dir.logs, dir.pool, newer.key, now) == None
            && ScanAnswer(env, after.logs, after.pool, newer.key, now) == Some(older.value.v)
  {
    hide Lawful, AllItems, Winner, Faithful, Consolidated, Gone, Drops, FrameAll, Survivors, TwoLogs, TiesIdentical,
      Unread, Serve;
    NewerWins(env, own, peer, newer, older);
    TwoLogsRead(env, own, peer, newer, older);
    NewerIsDropped(env, own, peer, newer, older, now);
    PeerAlone(env, peer, older);
    var dir := Dir(TwoLogs(env, own, peer, newer, older), map[]);
    DroppedLeavesSurvivors(env, dir, own, {}, {}, now, newer.key);
    ServesInline(env, Consolidated(env, dir, own, {}, {}, now).pool, older, now);
  }

  lemma {:induction false} PeerAlone(env: Env, peer: string, older: Record)
    requires Faithful(env, older)
    ensures var w := Winner(AllItems(env, map[peer := LogFile(FrameAll(env, [older]), true, 0)]), older.key);
            w.Some? && w.value.rec == older
  {
    hide AllItems, Winner, Faithful, FrameAll;
    var rest := map[peer := LogFile(FrameAll(env, [older]), true, 0)];
    ItemsHaveLogs(env, rest);
    LoneRecordWins(env, rest, peer, older);
  }

  lemma {:induction false} ServesInline(env: Env, pool: map<string, PoolFile>, r: Record, now: int)
    requires r.LiveAt(now) && !r.Spilled() && r.value.Inline?
    ensures Serve(env, pool, r, now) == Some(r.value.v)
  {}

  /** A deleted key comes back through consolidation... */
  lemma {:induction false} DeletedComesBack()
    ensures Faithful(SmallEnv(), Small(107, 2, Deletion)) && Faithful(SmallEnv(), Small(107, 1, Plain))
            && Lawful(SmallEnv())
    ensures var dir := Dir(TwoLogs(SmallEnv(), "a.log", "b.log", Small(107, 2, Deletion), Small(107, 1, Plain)), map[]);
            var after := Consolidated(SmallEnv(), dir, "a.log", {}, {}, 3);
            && ScanAnswer(SmallEnv(), dir.logs, dir.pool, "k", 3) == None
            && ScanAnswer(SmallEnv(), after.logs, after.pool, "k", 3) == Some(Nil)
  {
    HypothesesCanHold(107, 2, Deletion);
    HypothesesCanHold(107, 1, Plain);
    assert [107 as char] == "k";
    hide SmallEnv, Lawful, Faithful;
    OlderComesBack(SmallEnv(), "a.log", "b.log", Small(107, 2, Deletion), Small(107, 1, Plain), 3);
  }

  /** ... and so does the older value of a key whose newer value has not arrived in the pool, which is not the
      miss that recomputes ... */
  lemma {:induction false} WaitingComesBack()
    ensures Faithful(SmallEnv(), Small(107, 2, InPool)) && Faithful(SmallEnv(), Small(107, 1, Plain))
            && Lawful(SmallEnv())
    ensures var dir := Dir(TwoLogs(SmallEnv(), "a.log", "b.log", Small(107, 2, InPool), Small(107, 1, Plain)), map[]);
            var after := Consolidated(SmallEnv(), dir, "a.log", {}, {}, 3);
            && ScanAnswer(SmallEnv(), dir.logs, dir.pool, "k", 3) == None
            && ScanAnswer(SmallEnv(), after.logs, after.pool, "k", 3) == Some(Nil)
  {
    HypothesesCanHold(107, 2, InPool);
    HypothesesCanHold(107, 1, Plain);
    assert [107 as char] == "k";
    hide SmallEnv, Lawful, Faithful;
    OlderComesBack(SmallEnv(), "a.log", "b.log", Small(107, 2, InPool), Small(107, 1, Plain), 3);
  }

  /** ... and a deleted key comes back through a compaction of our log alone. */
  lemma {:induction false} DeletedComesBackCompacted()
    ensures Faithful(SmallEnv(), Small(107, 2, Deletion)) && Faithful(SmallEnv(), Small(107, 1, Plain))
            && Lawful(SmallEnv())
    ensures var logs := TwoLogs(SmallEnv(), "a.log", "b.log", Small(107, 2, Deletion), Small(107, 1, Plain));
            var after := AfterCompaction(SmallEnv(), logs, "a.log", 3, 0);
            && AnswerAt(AllItems(SmallEnv(), logs), "k", 3) == None
            && AnswerAt(AllItems(SmallEnv(), after), "k", 3) != None
  {
    HypothesesCanHold(107, 2, Deletion);
    HypothesesCanHold(107, 1, Plain);
    assert [107 as char] == "k";
    hide SmallEnv, Lawful, Faithful;
    var newer, older := Small(107, 2, Deletion), Small(107, 1, Plain);
    var logs := TwoLogs(SmallEnv(), "a.log", "b.log", newer, older);
    CompactedAway(SmallEnv(), "a.log", "b.log", newer, older, 3);
  }

  lemma {:induction false} CompactedAway(env: Env, own: string, peer: string, newer: Record, older: Record, now: int)
    requires Lawful(env) && Faithful(env, newer) && Faithful(env, older) && own != peer
    requires newer.key == older.key && older.Time() < newer.Time() && !newer.LiveAt(now) && older.LiveAt(now)
    ensures var logs := TwoLogs(env, own, peer, newer, older);
            && AnswerAt(AllItems(env, logs), newer.key, now) == None
            && AnswerAt(AllItems(env, AfterCompaction(env, logs, own, now, 0)), newer.key, now) != None
  {
    NewerWins(env, own, peer, newer, older);
    OwnWins(env, own, peer, newer, older);
    PeerAnswers(env, own, peer, newer, older);
    var logs := TwoLogs(env, own, peer, newer, older);
    hide Lawful, AllItems, Winner, Faithful, AfterCompaction, ScanLog, WithoutOwn, FrameAll, TiesIdentical;
    MergedAnswerUnderCompaction(env, logs, own, now, 0, newer.key, now);
  }

  lemma {:induction false} OwnWins(env: Env, own: string, peer: string, newer: Record, older: Record)
    requires Faithful(env, newer) && Faithful(env, older) && own != peer
    requires newer.key == older.key && older.Time() < newer.Time()
    ensures var logs := TwoLogs(env, own, peer, newer, older);
            Winner(ScanLog(env, own, logs[own].data), newer.key) == Winner(AllItems(env, logs), newer.key)
  {
    NewerWins(env, own, peer, newer, older);
    OneRecord(env, own, newer);
    hide ScanLog, FrameAll, AllItems, Winner, Faithful, TiesIdentical;
    var logs := TwoLogs(env, own, peer, newer, older);
    var x := OnlyRecord(env, logs, own, newer);
    var mine := ScanLog(env, own, logs[own].data);
    AllItemsMembers(env, logs);
    assert mine[0] in mine && mine[0] in AllItems(env, logs);
    hide TwoLogs;
    WinnerHasKey(AllItems(env, logs), newer.key);
    WinnerHasKey(mine, newer.key);
    WinnerIsNewest(mine, newer.key);
  }

  lemma {:induction false} PeerAnswers(env: Env, own: string, peer: string, newer: Record, older: Record)
    requires Faithful(env, newer) && Faithful(env, older) && own != peer
    ensures var bare := WithoutOwn(TwoLogs(env, own, peer, newer, older), own);
            var w := Winner(AllItems(env, bare), older.key); w.Some? && w.value.rec == older
  {
    var bare := WithoutOwn(TwoLogs(env, own, peer, newer, older), own);
    EmptyLogHasNothing(env, own, older.key);
    assert bare.Keys == {own, peer} && bare[own].data == [] && bare[peer] == LogFile(FrameAll(env, [older]), true, 0);
    hide ScanLog, FrameAll, AllItems, Winner, Faithful, WithoutOwn, TwoLogs;
    AllItemsMembers(env, bare);
    forall z | z in AllItems(env, bare)
      ensures z.log == peer
    {
      assert z.log == own || z.log == peer;
      assert z in ScanLog(env, z.log, bare[z.log].data);
    }
    LoneRecordWins(env, bare, peer, older);
  }
}
