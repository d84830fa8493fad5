/**
 Consolidation of one prefix: this writer's log rewritten against every writer's records, the logs
 of dead writers and conflict copies folded away, the shared pool marked and swept.
 */
module Consolidation {
  import opened Bytes
  import opened Options
  import opened Order
  import opened Pickle
  import opened Frames
  import opened ScanFacts
  import opened Fold
  import opened Store
  import opened Compaction

  const SECOND: int := 1_000_000_000
  const GRACE: int := 3600 * SECOND

  // ------------------------------------------------------------------ what a pass decides

  function Unread(logs: map<string, LogFile>): set<string> {
    set n | n in logs && !logs[n].readable
  }

  /** The logs a pass may fold away: named dead writers' and conflict copies, never the own log. */
  function FoldEligible(prune: set<string>, conflicts: set<string>, own: string): set<string> {
    (prune + conflicts) - {own}
  }

  /** The winners this writer's rewrite answers for: those in its own log or in one being folded. */
  function Ours(keep: seq<Located>, own: string, fold: set<string>): seq<Located> {
    StableSort(Filter(keep, (x: Located) => x.log == own || x.log in fold), TimeOf)
  }

  predicate Resolvable(x: Located, pool: map<string, PoolFile>) {
    x.rec.Spilled() ==> x.rec.spill.value in pool
  }

  /** `_resolve_spills`: a record whose pool file is absent is dropped. */
  function Resolved(ours: seq<Located>, pool: map<string, PoolFile>): seq<Located> {
    Filter(ours, (x: Located) => Resolvable(x, pool))
  }

  function AbsentSources(ours: seq<Located>, pool: map<string, PoolFile>): set<string> {
    set x | x in ours && !Resolvable(x, pool) :: x.log
  }

  /** The logs to delete: fold-eligible, read completely, and no conflict copy still waiting for a
      spill. */
  function Folded(logs: map<string, LogFile>, own: string, fold: set<string>, conflicts: set<string>,
                  absent: set<string>): set<string>
  {
    set n | n in logs && n in fold && n != own && logs[n].readable && !(n in conflicts && n in absent)
  }

  /** The pool paths that live records refer to, wherever the records stay. */
  function KeptSpills(keep: seq<Located>, consolidated: seq<Located>, own: string, fold: set<string>): set<string> {
    (set x | x in consolidated && x.rec.Spilled() :: x.rec.spill.value)
    + (set x | x in keep && x.rec.Spilled() && x.log != own && x.log !in fold :: x.rec.spill.value)
  }

  /** The sweep spares referenced files and young ones, and everything when a log was unreadable. */
  function Swept(pool: map<string, PoolFile>, kept: set<string>, unread: set<string>, now: int): map<string, PoolFile> {
    if unread != {} then pool
    else map rel | rel in pool && (rel in kept || now - pool[rel].touched < GRACE) :: pool[rel]
  }

  /** The own log after the rewrite: gone when nothing live remains. */
  function WithOwnRewritten(env: Env, logs: map<string, LogFile>, own: string, consolidated: seq<Located>,
                            mtime: int): map<string, LogFile>
    requires AllFaithful(env, RecordsIn(consolidated))
  {
    if consolidated == [] then logs - {own}
    else logs[own := LogFile(FrameAll(env, RecordsIn(consolidated)), true, mtime)]
  }

  lemma {:induction false} OursMembers(keep: seq<Located>, own: string, fold: set<string>, pool: map<string, PoolFile>)
    ensures forall x :: x in Ours(keep, own, fold) <==> x in keep && (x.log == own || x.log in fold)
    ensures forall x :: x in Resolved(Ours(keep, own, fold), pool) <==>
              x in keep && (x.log == own || x.log in fold) && Resolvable(x, pool)
  {
    SortFacts(Filter(keep, (x: Located) => x.log == own || x.log in fold), TimeOf);
  }

  lemma {:induction false} GatheredAreFaithful(env: Env, logs: map<string, LogFile>, items: seq<Located>)
    requires Lawful(env) && forall x :: x in items ==> x in AllItems(env, logs)
    ensures AllFaithful(env, RecordsIn(items))
  {
    hide Lawful, Gather;
    GatherMembers(env, logs, SortedNames(logs.Keys));
    PlacedAreFaithful(env, logs, items);
  }

  /** The live winners over every readable log. */
  function KeepOf(env: Env, logs: map<string, LogFile>, now: int): seq<Located> {
    LiveWinners(AllItems(env, logs), now)
  }

  lemma {:induction false} ConsolidatedAreFaithful(env: Env, logs: map<string, LogFile>, pool: map<string, PoolFile>,
                                                   own: string, fold: set<string>, now: int)
    requires Lawful(env)
    ensures AllFaithful(env, RecordsIn(Resolved(Ours(KeepOf(env, logs, now), own, fold), pool)))
  {
    hide Lawful, AllItems, LiveWinners, Ours, Resolved;
    var items := AllItems(env, logs);
    LiveWinnersFacts(items, now);
    OursMembers(KeepOf(env, logs, now), own, fold, pool);
    forall x | x in Resolved(Ours(KeepOf(env, logs, now), own, fold), pool)
      ensures x in items
    { WinnerHasKey(items, x.rec.key); }
    GatheredAreFaithful(env, logs, Resolved(Ours(KeepOf(env, logs, now), own, fold), pool));
  }

  /** The whole effect of a pass on the directory. */
  function Consolidated(env: Env, dir: Dir, own: string, prune: set<string>, conflicts: set<string>, now: int): Dir
    requires Lawful(env)
  {
    var logs, pool := dir.logs, dir.pool;
    if own in Unread(logs) then dir
    else
      var fold := FoldEligible(prune, conflicts, own);
      var keep := KeepOf(env, logs, now);
      var ours := Ours(keep, own, fold);
      var consolidated := Resolved(ours, pool);
      ConsolidatedAreFaithful(env, logs, pool, own, fold, now);
      var gone := Folded(logs, own, fold, conflicts, AbsentSources(ours, pool));
      Dir(WithOwnRewritten(env, logs, own, consolidated, now) - gone,
          Swept(pool, KeptSpills(keep, consolidated, own, fold), Unread(logs), now))
  }

  // ------------------------------------------------------------------ no live winner is lost

  /** The logs as they physically are: a read fault hides records, it does not remove them. */
  function Physical(logs: map<string, LogFile>): map<string, LogFile> {
    map n | n in logs :: logs[n].(readable := true)
  }

  /** Every record of the prefix, in the logs' name order, faults or no faults. */
  function PhysicalItems(env: Env, logs: map<string, LogFile>): seq<Located> {
    AllItems(env, Physical(logs))
  }

  /** Records of one key with one store time are the same record. */
  ghost predicate TiesIdentical(items: seq<Located>) {
    forall x, y :: x in items && y in items && x.rec.key == y.rec.key && x.rec.Time() == y.rec.Time() ==> x.rec == y.rec
  }

  lemma {:induction false} PhysicalMembers(env: Env, logs: map<string, LogFile>)
    ensures forall x :: x in PhysicalItems(env, logs) <==> x.log in logs && x in ScanLog(env, x.log, logs[x.log].data)
    ensures forall x :: x in AllItems(env, logs) <==>
              x.log in logs && logs[x.log].readable && x in ScanLog(env, x.log, logs[x.log].data)
  {
    hide ScanLog, Gather, Placed;
    GatherMembers(env, Physical(logs), SortedNames(Physical(logs).Keys));
    GatherMembers(env, logs, SortedNames(logs.Keys));
  }

  /** A record as new as every record of its key, and no newer contender: it is the winner's record. */
  lemma {:induction false} WinnerByTime(items: seq<Located>, x: Located)
    requires TiesIdentical(items) && x in items
    requires forall y :: y in items && y.rec.key == x.rec.key ==> y.rec.Time() <= x.rec.Time()
    ensures Winner(items, x.rec.key).Some? && Winner(items, x.rec.key).value.rec == x.rec
  {
    WinnerIsNewest(items, x.rec.key);
  }

  lemma {:induction false} RewrittenPairs(env: Env, own: string, consolidated: seq<Located>)
    requires AllFaithful(env, RecordsIn(consolidated))
    ensures var found := ScanLog(env, own, FrameAll(env, RecordsIn(consolidated)));
            && |found| == |consolidated|
            && forall i :: 0 <= i < |found| ==> found[i].rec == consolidated[i].rec && found[i].log == own
  {
    hide FrameAll, Walk, Faithful, Frame, ParseFrame;
    var recs := RecordsIn(consolidated);
    LogRoundTrip(env, recs);
    var w := Walk(env, FrameAll(env, recs), 0);
    var found := ScanLog(env, own, FrameAll(env, recs));
    forall i | 0 <= i < |found|
      ensures found[i].rec == consolidated[i].rec && found[i].log == own
    {
      assert RecordsOf(w)[i] == recs[i];
    }
  }

  /** The rewritten own log holds only consolidated records. */
  lemma {:induction false} RewrittenComeFrom(env: Env, own: string, consolidated: seq<Located>)
    requires AllFaithful(env, RecordsIn(consolidated))
    ensures forall y :: y in ScanLog(env, own, FrameAll(env, RecordsIn(consolidated))) ==>
              y.log == own && exists x :: x in consolidated && x.rec == y.rec
  {
    hide FrameAll, ScanLog, Faithful;
    RewrittenPairs(env, own, consolidated);
    var found := ScanLog(env, own, FrameAll(env, RecordsIn(consolidated)));
    forall y | y in found
      ensures y.log == own && exists x :: x in consolidated && x.rec == y.rec
    {
      var i :| 0 <= i < |found| && found[i] == y;
      assert consolidated[i] in consolidated;
    }
  }

  /** The rewritten own log holds every consolidated record. */
  lemma {:induction false} RewrittenHold(env: Env, own: string, consolidated: seq<Located>)
    requires AllFaithful(env, RecordsIn(consolidated))
    ensures forall x :: x in consolidated ==>
              exists y :: y in ScanLog(env, own, FrameAll(env, RecordsIn(consolidated))) && y.rec == x.rec
                && y.log == own
  {
    hide FrameAll, ScanLog, Faithful;
    RewrittenPairs(env, own, consolidated);
    var found := ScanLog(env, own, FrameAll(env, RecordsIn(consolidated)));
    forall x | x in consolidated
      ensures exists y :: y in found && y.rec == x.rec && y.log == own
    {
      var i :| 0 <= i < |consolidated| && consolidated[i] == x;
      assert found[i] in found;
    }
  }

  /** A pass makes no record up: what it leaves was there before. */
  lemma {:induction false} PassAddsNothing(env: Env, dir: Dir, own: string, prune: set<string>, conflicts: set<string>,
                                           now: int, y: Located)
    requires Lawful(env)
    ensures y in PhysicalItems(env, Consolidated(env, dir, own, prune, conflicts, now).logs) ==>
              exists x :: x in PhysicalItems(env, dir.logs) && x.rec == y.rec
  {
    hide Lawful, ScanLog, AllItems, LiveWinners, Ours, Resolved, FrameAll, AllFaithful;
    var after := Consolidated(env, dir, own, prune, conflicts, now);
    PhysicalMembers(env, dir.logs);
    PhysicalMembers(env, after.logs);
    if y !in PhysicalItems(env, after.logs) {
    } else if y.log != own || own in Unread(dir.logs) {
      assert y in PhysicalItems(env, dir.logs);
    } else {
      var fold := FoldEligible(prune, conflicts, own);
      var keep := KeepOf(env, dir.logs, now);
      var consolidated := Resolved(Ours(keep, own, fold), dir.pool);
      ConsolidatedAreFaithful(env, dir.logs, dir.pool, own, fold, now);
      RewrittenComeFrom(env, own, consolidated);
      OursMembers(keep, own, fold, dir.pool);
      LiveWinnersFacts(AllItems(env, dir.logs), now);
      assert y in ScanLog(env, own, FrameAll(env, RecordsIn(consolidated)));
      var x :| x in consolidated && x.rec == y.rec;
      WinnerHasKey(AllItems(env, dir.logs), x.rec.key);
      assert x in AllItems(env, dir.logs);
    }
  }

  /** A live winner of the merge that can be resolved is still in some log after the pass. */
  lemma {:induction false} MergedWinnerStays(env: Env, dir: Dir, own: string, prune: set<string>,
                                             conflicts: set<string>, now: int, x: Located)
    requires Lawful(env) && own !in Unread(dir.logs)
    requires x in KeepOf(env, dir.logs, now) && Resolvable(x, dir.pool)
    ensures var after := Consolidated(env, dir, own, prune, conflicts, now);
            && (exists y :: y in PhysicalItems(env, after.logs) && y.rec == x.rec)
            && (x.rec.Spilled() ==> x.rec.spill.value in after.pool
                                    && after.pool[x.rec.spill.value] == dir.pool[x.rec.spill.value])
  {
    hide Lawful, ScanLog, AllItems, LiveWinners, Ours, Resolved, FrameAll, AllFaithful;
    var after := Consolidated(env, dir, own, prune, conflicts, now);
    var fold := FoldEligible(prune, conflicts, own);
    var keep := KeepOf(env, dir.logs, now);
    var consolidated := Resolved(Ours(keep, own, fold), dir.pool);
    PhysicalMembers(env, dir.logs);
    PhysicalMembers(env, after.logs);
    OursMembers(keep, own, fold, dir.pool);
    LiveWinnersFacts(AllItems(env, dir.logs), now);
    WinnerHasKey(AllItems(env, dir.logs), x.rec.key);
    if x.log == own || x.log in fold {
      assert x in consolidated;
      ConsolidatedAreFaithful(env, dir.logs, dir.pool, own, fold, now);
      RewrittenHold(env, own, consolidated);
      var y :| y in ScanLog(env, own, FrameAll(env, RecordsIn(consolidated))) && y.rec == x.rec && y.log == own;
      assert y.log == own && own in after.logs;
    } else {
      assert x.log in after.logs && after.logs[x.log] == dir.logs[x.log];
    }
  }

  /** A live winner of the merge that waits for its spill in a conflict copy is still in that copy after
      the pass: the copy is its only carrier. */
  lemma {:induction false} WaitingCopyStays(env: Env, dir: Dir, own: string, prune: set<string>, conflicts: set<string>,
                                            now: int, x: Located)
    requires Lawful(env) && x in KeepOf(env, dir.logs, now) && !Resolvable(x, dir.pool)
    requires x.log in conflicts && x.log != own
    ensures var after := Consolidated(env, dir, own, prune, conflicts, now);
            && x.log in after.logs && after.logs[x.log] == dir.logs[x.log]
            && x in AllItems(env, after.logs)
  {
    hide Lawful, ScanLog, AllItems, LiveWinners, Ours, Resolved, FrameAll, AllFaithful;
    var after := Consolidated(env, dir, own, prune, conflicts, now);
    var keep := KeepOf(env, dir.logs, now);
    OursMembers(keep, own, FoldEligible(prune, conflicts, own), dir.pool);
    LiveWinnersFacts(AllItems(env, dir.logs), now);
    WinnerHasKey(AllItems(env, dir.logs), x.rec.key);
    PhysicalMembers(env, dir.logs);
    PhysicalMembers(env, after.logs);
    if own !in Unread(dir.logs) {
      assert x.log in AbsentSources(Ours(keep, own, FoldEligible(prune, conflicts, own)), dir.pool);
    }
  }

  /** Consolidation loses no live winner: whatever is pruned, folded or unreadable, a key whose
      latest record over all logs is live and has its value at hand keeps that very record as the
      latest over the remaining logs, and keeps its pool file. */
  lemma {:induction false} ConsolidationKeepsWinners(env: Env, dir: Dir, own: string, prune: set<string>,
                                                     conflicts: set<string>, now: int, key: string)
    requires Lawful(env) && TiesIdentical(PhysicalItems(env, dir.logs))
    requires var w := Winner(PhysicalItems(env, dir.logs), key);
             w.Some? && w.value.rec.LiveAt(now) && Resolvable(w.value, dir.pool)
    ensures var after := Consolidated(env, dir, own, prune, conflicts, now);
            var w := Winner(PhysicalItems(env, dir.logs), key).value.rec;
            var w' := Winner(PhysicalItems(env, after.logs), key);
            && w'.Some? && w'.value.rec == w
            && (w.Spilled() ==> w.spill.value in after.pool && after.pool[w.spill.value] == dir.pool[w.spill.value])
  {
    hide Lawful, ScanLog, AllItems, LiveWinners, Ours, Resolved, FrameAll, AllFaithful, Consolidated;
    var before := PhysicalItems(env, dir.logs);
    var after := Consolidated(env, dir, own, prune, conflicts, now);
    var items := PhysicalItems(env, after.logs);
    var w := Winner(before, key).value;
    WinnerHasKey(before, key);
    WinnerIsNewest(before, key);
    PhysicalMembers(env, dir.logs);
    PhysicalMembers(env, after.logs);
    assert exists y :: y in items && y.rec == w.rec by {
      WinnerStays(env, dir, own, prune, conflicts, now, key);
    }
    var y :| y in items && y.rec == w.rec;
    forall z | z in items
      ensures exists x :: x in before && x.rec == z.rec
    { PassAddsNothing(env, dir, own, prune, conflicts, now, z); }
    assert TiesIdentical(items);
    WinnerByTime(items, y);
    WinnerStays(env, dir, own, prune, conflicts, now, key);
  }

  lemma {:induction false} WinnerStays(env: Env, dir: Dir, own: string, prune: set<string>, conflicts: set<string>,
                                       now: int, key: string)
    requires Lawful(env) && TiesIdentical(PhysicalItems(env, dir.logs))
    requires var w := Winner(PhysicalItems(env, dir.logs), key);
             w.Some? && w.value.rec.LiveAt(now) && Resolvable(w.value, dir.pool)
    ensures var after := Consolidated(env, dir, own, prune, conflicts, now);
            var w := Winner(PhysicalItems(env, dir.logs), key).value.rec;
            && (exists y :: y in PhysicalItems(env, after.logs) && y.rec == w)
            && (w.Spilled() ==> w.spill.value in after.pool && after.pool[w.spill.value] == dir.pool[w.spill.value])
  {
    hide Lawful, ScanLog, AllItems, LiveWinners, Ours, Resolved, FrameAll, AllFaithful;
    var before := PhysicalItems(env, dir.logs);
    var after := Consolidated(env, dir, own, prune, conflicts, now);
    var w := Winner(before, key).value;
    WinnerHasKey(before, key);
    WinnerIsNewest(before, key);
    PhysicalMembers(env, dir.logs);
    PhysicalMembers(env, after.logs);
    if own in Unread(dir.logs) {
    } else if !dir.logs[w.log].readable {
      assert after.logs[w.log] == dir.logs[w.log];
      assert Unread(dir.logs) != {} by { assert w.log in Unread(dir.logs); }
    } else {
      var seen := AllItems(env, dir.logs);
      assert forall x :: x in seen ==> x in before;
      WinnerIsNewest(seen, key);
      var m := Winner(seen, key).value;
      WinnerHasKey(seen, key);
      LiveWinnersFacts(seen, now);
      MergedWinnerStays(env, dir, own, prune, conflicts, now, m);
    }
  }
}
