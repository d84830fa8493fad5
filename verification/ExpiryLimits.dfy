/** Runs of a lone writer in which an entry expires while a call builds the index again: the call misses it, though
    it was live when the call began. */
module ExpiryLimits {
  import opened Bytes
  import opened Options
  import opened Expiry
  import opened Order
  import opened Pickle
  import opened Frames
  import opened ScanFacts
  import opened Fold
  import opened Store
  import opened Index
  import opened Compaction
  import opened LogCaches
  import opened LoneWriter
  import opened LoneWriterRuns
  import opened LoneWriterRoom
  import opened Hypotheses

  /** A new cache over an empty directory. */
  function Start(): Moment {
    Moment(Dir(map[], map[]), Known(false, None, None, None))
  }

  /** `set` a key at time 5, to live for one tick. */
  const SETTING: Command := SetCmd("k", Nil, Some(1), 5, 5, 0)

  /** Compact, which drops the index. */
  const COMPACTING: Command := CompactCmd(5)

  /** What the map then holds. */
  const HELD: Table := map["k" := Slot(Nil, Some(6))]

  ghost function First(c: LogCache): Turn
    requires Lawful(c.env)
  {
    React(c, map[], Start(), SETTING)
  }

  ghost function Second(c: LogCache): Turn
    requires Lawful(c.env)
  {
    React(c, First(c).table, First(c).s, COMPACTING)
  }

  /** A cache in the small environment that keeps values inline and its log under the limit. */
  ghost predicate InSmall(c: LogCache) {
    c.env == SmallEnv() && c.prefix == "p" && c.minFileSize > 2 && c.maxLogBytes >= 8
  }

  /** The frame of a small record is 8 bytes. */
  lemma {:induction false} SmallFrame(letter: byte, time: byte, kind: Kind)
    ensures FrameLength(SmallEnv(), Small(letter, time, kind)) == 8
  {
    SmallIsSmall(letter, time, kind);
  }

  lemma {:induction false} AllAccepted(c: LogCache)
    requires InSmall(c)
    ensures Need(c, SETTING) == 8 && Accepted(c, SETTING)
    ensures Need(c, DeleteCmd("k", 6, 7, 0)) == 8 && Accepted(c, DeleteCmd("k", 6, 7, 0))
    ensures Lawful(c.env)
  {
    assert [107 as char] == "k";
    SmallIsLawful();
    SetRecordIsSmall(107, 5, c.minFileSize);
    SetRecordIsSmall(107, 6, c.minFileSize);
    SmallFrame(107, 5, Fleeting);
    SmallFrame(107, 6, Deletion);
    hide SmallEnv, FrameLength;
  }

  /** The `set` leaves the log below the limit, and so in place. */
  lemma {:induction false} SetKeepsLog(c: LogCache)
    requires InSmall(c) && Lawful(c.env)
    ensures c.own in First(c).s.dir.logs
  {
    AllAccepted(c);
    NothingRoomy(c.env, c.own, 0);
    RoomyIsIndexable(c.env, c.own, map[], 0, 5);
    var r := RecordFor(c.env, c.prefix, c.minFileSize, "k", Nil, Some(1), 5);
    hide Lawful, SmallEnv, Indexable, Roomy, SoleLog, Appended, Encodable, RecordFor, FrameLength;
    AppendedSize(c.env, c.own, map[], r, 5);
    var (outcome, s') := c.SetEffect(Start(), "k", Nil, Some(1), 5, 5, 0);
    assert outcome == Stored(Nothing);
  }

  lemma {:induction false} NoNeed(c: LogCache, cmd: Command)
    requires cmd.CompactCmd? || cmd.GetCmd?
    ensures Need(c, cmd) == 0 && Accepted(c, cmd)
  {}

  lemma {:induction false} SettingSets(c: LogCache, s: Moment)
    ensures var at := Decisive(c, s, SETTING);
            MapReply(map[], SETTING, at) == Done && MapAfter(map[], SETTING, at) == HELD
  {}

  lemma {:induction false} AfterSetting(c: LogCache)
    requires Lawful(c.env) && Accepted(c, SETTING) && Need(c, SETTING) == 8
    ensures First(c).reply == Done && First(c).table == HELD
    ensures SoleLog(c.env, c.own, First(c).s.dir.logs) && Roomy(c.env, c.own, First(c).s.dir.logs, 8)
  {
    NothingRoomy(c.env, c.own, 0);
    SettingSets(c, Start());
    hide Lawful, Roomy, SoleLog, Need, Accepted, React, MapReply, MapAfter, Decisive;
    StepRoomy(c, map[], Start(), SETTING, 0);
  }

  lemma {:induction false} AfterSet(c: LogCache)
    requires InSmall(c)
    ensures Lawful(c.env)
    ensures First(c).reply == Done && First(c).table == HELD && c.own in First(c).s.dir.logs
    ensures SoleLog(c.env, c.own, First(c).s.dir.logs) && Roomy(c.env, c.own, First(c).s.dir.logs, 8)
  {
    AllAccepted(c);
    SetKeepsLog(c);
    hide *;
    AfterSetting(c);
  }

  lemma {:induction false} AfterCompact(c: LogCache, m: Table, s: Moment, cmd: Command)
    requires Lawful(c.env) && c.own in s.dir.logs && cmd.CompactCmd?
    requires SoleLog(c.env, c.own, s.dir.logs) && Roomy(c.env, c.own, s.dir.logs, 8)
    ensures var t := React(c, m, s, cmd);
            && t.reply == Done && t.table == m && !t.s.known.indexed
            && SoleLog(c.env, c.own, t.s.dir.logs) && Roomy(c.env, c.own, t.s.dir.logs, 8)
  {
    hide Lawful, Roomy, SoleLog, Need, Accepted, CompactLog;
    NoNeed(c, cmd);
    StepRoomy(c, m, s, cmd, 8);
  }

  /** After the `set` and the compaction the map holds the key, and there is no index. */
  lemma {:induction false} WithoutIndex(c: LogCache)
    requires InSmall(c)
    ensures Lawful(c.env) && First(c).reply == Done
    ensures Second(c).reply == Done && Second(c).table == HELD && !Second(c).s.known.indexed
    ensures SoleLog(c.env, c.own, Second(c).s.dir.logs) && Roomy(c.env, c.own, Second(c).s.dir.logs, 8)
  {
    AfterSet(c);
    hide Lawful, Roomy, SoleLog, React, InSmall, First;
    AfterCompact(c, First(c).table, First(c).s, COMPACTING);
  }

  lemma {:induction false} TwoCalls(c: LogCache, cmd: Command)
    requires Lawful(c.env)
    ensures Reactions(c, map[], Start(), [SETTING, COMPACTING, cmd]).replies
            == [First(c).reply, Second(c).reply, React(c, Second(c).table, Second(c).s, cmd).reply]
  {
    hide Lawful, React;
    var cmds := [SETTING, COMPACTING, cmd];
    assert cmds[1..] == [COMPACTING, cmd] && [COMPACTING, cmd][1..] == [cmd] && [cmd][1..] == [];
    assert Reactions(c, Second(c).table, Second(c).s, [cmd]).replies
           == [React(c, Second(c).table, Second(c).s, cmd).reply] + [];
  }

  /** A call that needs the index finds none, and so is decided when the index is built. */
  lemma {:induction false} ThirdCall(c: LogCache, cmd: Command)
    requires InSmall(c) && (cmd.GetCmd? || cmd.DeleteCmd?) && Accepted(c, cmd) && Need(c, cmd) <= 8
    ensures Lawful(c.env)
    ensures React(c, Second(c).table, Second(c).s, cmd).reply == MapReply(HELD, cmd, cmd.wall)
    ensures First(c).reply == Second(c).reply == Done
  {
    WithoutIndex(c);
    hide Lawful, Roomy, SoleLog, Need, Accepted, React, InSmall, First, Second;
    StepRoomy(c, Second(c).table, Second(c).s, cmd, 8);
  }

  /** A `get` that began at 6, when the entry was live, and built the index at 7: it misses, where a map finds. */
  lemma {:induction false} LiveEntryIsMissed(c: LogCache)
    requires InSmall(c)
    ensures Lawful(c.env)
    ensures Reactions(c, map[], Start(), [SETTING, COMPACTING, GetCmd("k", 6, 7, 0)]).replies
            == [Done, Done, Found(None)]
    ensures MapReplies(map[], [SETTING, COMPACTING, GetCmd("k", 6, 7, 0)]) == [Done, Done, Found(Some(Nil))]
  {
    NoNeed(c, GetCmd("k", 6, 7, 0));
    ThirdCall(c, GetCmd("k", 6, 7, 0));
    MapThird(GetCmd("k", 6, 7, 0));
    hide InSmall, Lawful, First, Second, React, Reactions, MapReplies;
    TwoCalls(c, GetCmd("k", 6, 7, 0));
  }

  /** A `delete` at the same readings says that there was nothing. */
  lemma {:induction false} LiveEntryIsNotDeleted(c: LogCache)
    requires InSmall(c)
    ensures Lawful(c.env)
    ensures Reactions(c, map[], Start(), [SETTING, COMPACTING, DeleteCmd("k", 6, 7, 0)]).replies
            == [Done, Done, Removed(false)]
    ensures MapReplies(map[], [SETTING, COMPACTING, DeleteCmd("k", 6, 7, 0)]) == [Done, Done, Removed(true)]
  {
    AllAccepted(c);
    ThirdCall(c, DeleteCmd("k", 6, 7, 0));
    MapThird(DeleteCmd("k", 6, 7, 0));
    hide InSmall, Lawful, First, Second, React, Reactions, MapReplies;
    TwoCalls(c, DeleteCmd("k", 6, 7, 0));
  }

  lemma {:induction false} MapThird(cmd: Command)
    ensures MapReplies(map[], [SETTING, COMPACTING, cmd]) == [Done, Done, MapReply(HELD, cmd, cmd.now)]
  {
    var cmds := [SETTING, COMPACTING, cmd];
    assert cmds[1..] == [COMPACTING, cmd] && [COMPACTING, cmd][1..] == [cmd] && [cmd][1..] == [];
    assert MapReplies(HELD, [cmd]) == [MapReply(HELD, cmd, cmd.now)] + [];
  }
}
