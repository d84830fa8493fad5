/** What a `set` of the log cache writes, and which upkeep it does, with sizes and times written out. */
module SetLaws {
  import opened Bytes
  import opened Options
  import opened Expiry
  import opened Pickle
  import opened Frames
  import opened ScanFacts
  import opened Store
  import opened Index
  import opened Compaction
  import opened Consolidation
  import opened LogCaches
  import opened LoneWriterRuns

  /** A `set`'s outcome and what it leaves. */
  ghost function Effect(c: LogCache, s: Moment, cmd: Command): (SetOutcome, Moment)
    requires Lawful(c.env) && cmd.SetCmd?
  {
    c.SetEffect(s, cmd.key, cmd.value, cmd.expire, cmd.now, cmd.later, cmd.mono)
  }

  /** The record of a `set` at `now`: its value inline when pickled shorter than `minFileSize`, and else in the
      pool file named by its content; an expiry only for a time to live that is given and not zero. */
  function Made(c: LogCache, cmd: Command): Record
    requires cmd.SetCmd?
  {
    var blob := c.env.dumps(cmd.value);
    var expiry := if cmd.expire == None || cmd.expire == Some(0) then None
                  else Some(Ticks(cmd.now + cmd.expire.value));
    if |blob| < c.minFileSize then Record(cmd.key, Inline(cmd.value), expiry, Ticks(cmd.now), false, None)
    else Record(cmd.key, Inline(Nil), expiry, Ticks(cmd.now), false, Some(PoolPath(c.env, c.prefix, blob)))
  }

  /** The logs with that record's frame at the end of ours. */
  function Grown(c: LogCache, logs: map<string, LogFile>, cmd: Command): (after: map<string, LogFile>)
    requires cmd.SetCmd? && |BlobOf(c.env, Made(c, cmd))| < U32
    ensures c.own in after
  {
    var frame := Frame(c.env, Made(c, cmd));
    if c.own in logs then logs[c.own := LogFile(logs[c.own].data + frame, logs[c.own].readable, cmd.later)]
    else logs[c.own := LogFile(frame, true, cmd.later)]
  }

  lemma {:induction false} MadeIs(c: LogCache, cmd: Command)
    requires cmd.SetCmd?
    ensures RecordFor(c.env, c.prefix, c.minFileSize, cmd.key, cmd.value, cmd.expire, cmd.now) == Made(c, cmd)
  {
    hide PoolPath;
  }

  /** A `set` leaves a pool file as it found it but for its own value's: that one is there, as long as the pickled
      value, and its age starts again, whether it was written or found. */
  lemma {:induction false} SpillsExactly(c: LogCache, pool: map<string, PoolFile>, value: PyObj, now: int, rel: string)
    ensures var blob, after := c.env.dumps(value), c.PoolAfter(pool, value, now);
            if |blob| >= c.minFileSize && rel == PoolPath(c.env, c.prefix, blob) then
              && rel in after && after[rel].touched == now && |after[rel].data| == |blob|
              && (after[rel].data == blob || (rel in pool && after[rel].data == pool[rel].data))
            else (rel in after <==> rel in pool) && (rel in pool ==> after[rel] == pool[rel])
  {
    hide PoolPath;
  }

  /** The names of the logs that a `set` knows of. */
  function KnownNames(c: LogCache, s: Moment, mono: int): set<string> {
    {c.own} + if c.Outdated(s, mono) then set n | n in s.dir.logs && s.dir.logs[n].readable
              else if s.known.sizes.Some? then s.known.sizes.value.Keys else {}
  }

  /** The last whole pass is more than a minute ago. */
  predicate Rested(s: Moment, mono: int) {
    s.known.passed.None? || mono - s.known.passed.value > 60_000_000_000
  }

  /** What is due. */
  function DueNow(c: LogCache, s: Moment, size: nat, mono: int): Upkeep {
    if size <= c.maxLogBytes then Nothing
    else if |set n | n in KnownNames(c, s, mono) && !c.isConflict(n)| > 1 || !Rested(s, mono) then Compacting
    else Consolidating
  }

  lemma {:induction false} DueIs(c: LogCache, s: Moment, wall: int, mono: int, size: nat)
    requires !c.Blocked(s, wall, mono)
    ensures c.Due(c.Checking(s, wall, mono), size, mono) == DueNow(c, s, size, mono)
  {
    hide Indexable;
    assert (set n | n in c.Checking(s, wall, mono).Sig()[c.own := size] && !c.isConflict(n))
           == set n | n in KnownNames(c, s, mono) && !c.isConflict(n);
  }

  /** The parts of the effect. */
  lemma {:induction false} EffectParts(c: LogCache, s: Moment, cmd: Command)
    requires Lawful(c.env) && cmd.SetCmd? && !Effect(c, s, cmd).0.Refused?
    ensures Encodable(c.env, Made(c, cmd)) && !c.Blocked(s, cmd.later, cmd.mono)
    ensures var (outcome, after) := Effect(c, s, cmd);
            var logs := Appended(c.env, s.dir.logs, c.own, Made(c, cmd), cmd.later);
            var due := c.Due(c.Checking(s, cmd.later, cmd.mono), SizeOf(logs, c.own), cmd.mono);
            && outcome == c.Ending(due, logs[c.own].readable)
            && after.dir == KeptUp(c.env, Dir(logs, c.PoolAfter(s.dir.pool, cmd.value, cmd.now)), c.own,
                                   c.ConflictsIn(logs), outcome.Done(), cmd.later)
            && (due.Consolidating? ==> after.known.passed == Some(cmd.mono))
  {
    MadeIs(c, cmd);
    hide Lawful, Appended, KeptUp, RecordFor, Made, Encodable, Indexable, c.Checking, c.Due;
  }

  /** A `set` that is stored appends its record.  While the log stays within its limit that is all.  Above it, and
      when more than one canonical log is known or the last pass is within a minute, only our log is rewritten:
      no other log and no pool file is touched.  Else a whole pass follows, which also folds conflict copies and
      collects the pool. */
  lemma {:induction false} UpkeepExactly(c: LogCache, s: Moment, cmd: Command)
    requires Lawful(c.env) && cmd.SetCmd? && !Effect(c, s, cmd).0.Refused?
    ensures |BlobOf(c.env, Made(c, cmd))| < U32
    ensures var (outcome, after) := Effect(c, s, cmd);
            var logs, pool := Grown(c, s.dir.logs, cmd), c.PoolAfter(s.dir.pool, cmd.value, cmd.now);
            var file := logs[c.own];
            match DueNow(c, s, |file.data|, cmd.mono)
            case Nothing => outcome == Stored(Nothing) && after.dir == Dir(logs, pool)
            case Compacting =>
              && (outcome.Stored? <==> file.readable)
              && after.dir.pool == pool
              && after.dir.logs == if !file.readable then logs
                                   else logs[c.own :=
                                               LogFile(CompactLog(c.env, c.own, file.data, cmd.later), true, cmd.later)]
            case Consolidating =>
              && outcome.Stored? && after.known.passed == Some(cmd.mono)
              && after.dir == Consolidated(c.env, Dir(logs, pool), c.own, {}, (set n | n in logs && c.isConflict(n)),
                                           cmd.later)
  {
    EffectParts(c, s, cmd);
    GrownIs(c, s.dir.logs, cmd);
    hide Lawful, CompactLog, Consolidated, Made, Effect, c.Checking, c.Due, Grown, Appended, DueNow, c.Blocked,
      BlobOf;
    var logs := Appended(c.env, s.dir.logs, c.own, Made(c, cmd), cmd.later);
    DueIs(c, s, cmd.later, cmd.mono, SizeOf(logs, c.own));
  }

  lemma {:induction false} GrownIs(c: LogCache, logs: map<string, LogFile>, cmd: Command)
    requires cmd.SetCmd? && |BlobOf(c.env, Made(c, cmd))| < U32
    ensures Grown(c, logs, cmd) == Appended(c.env, logs, c.own, Made(c, cmd), cmd.later)
  {
    hide Made, Frame;
  }
}
