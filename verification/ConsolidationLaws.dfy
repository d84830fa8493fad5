/** What a consolidation pass folds away, writes and collects, told from the directory before it. */
module ConsolidationLaws {
  import opened Bytes
  import opened Options
  import opened Order
  import opened Pickle
  import opened Frames
  import opened ScanFacts
  import opened Fold
  import opened Store
  import opened Compaction
  import opened Consolidation
  import opened ConsolidationScope

  /** `x` is the latest record of its key over all readable logs, and it is live. */
  ghost predicate LiveLatest(env: Env, logs: map<string, LogFile>, now: int, x: Located) {
    x in AllItems(env, logs) && Winner(AllItems(env, logs), x.rec.key) == Some(x) && x.rec.LiveAt(now)
  }

  /** The record's value is inline, or its pool file is there. */
  predicate AtHand(x: Located, pool: map<string, PoolFile>) {
    x.rec.spill.None? || x.rec.spill.value == "" || x.rec.spill.value in pool
  }

  predicate OwnReadable(logs: map<string, LogFile>, own: string) {
    own in logs ==> logs[own].readable
  }

  /** A live latest record whose value is at hand, in our log or in one of a writer asserted dead or a conflict
      copy: what the pass is to write to our log. */
  ghost predicate ToWrite(env: Env, dir: Dir, own: string, prune: set<string>, conflicts: set<string>, now: int,
                          x: Located) {
    LiveLatest(env, dir.logs, now, x) && AtHand(x, dir.pool) && (x.log == own || x.log in prune || x.log in conflicts)
  }

  /** A live latest record of this log waits for its pool file. */
  ghost predicate Waiting(env: Env, dir: Dir, now: int, n: string, x: Located) {
    LiveLatest(env, dir.logs, now, x) && x.log == n && !AtHand(x, dir.pool)
  }

  lemma {:induction false} KeptAreLatest(env: Env, logs: map<string, LogFile>, now: int)
    ensures forall x :: x in KeepOf(env, logs, now) <==> LiveLatest(env, logs, now, x)
  {
    hide AllItems, LiveWinners, Winner;
    LiveWinnersFacts(AllItems(env, logs), now);
    forall x | x in KeepOf(env, logs, now)
      ensures x in AllItems(env, logs)
    { WinnerHasKey(AllItems(env, logs), x.rec.key); }
  }

  /** The records written are exactly those to write. */
  lemma {:induction false} WrittenExactly(env: Env, dir: Dir, own: string, prune: set<string>, conflicts: set<string>,
                                          now: int)
    ensures forall x :: x in Rewritten(env, dir, own, prune, conflicts, now) <==>
              ToWrite(env, dir, own, prune, conflicts, now, x)
  {
    hide KeepOf, Ours, Resolved, LiveLatest;
    KeptAreLatest(env, dir.logs, now);
    OursMembers(KeepOf(env, dir.logs, now), own, FoldEligible(prune, conflicts, own), dir.pool);
  }

  lemma {:induction false} AbsentExactly(env: Env, dir: Dir, own: string, prune: set<string>, conflicts: set<string>,
                                         now: int, n: string)
    requires n != own && (n in prune || n in conflicts)
    ensures n in AbsentSources(Ours(KeepOf(env, dir.logs, now), own, FoldEligible(prune, conflicts, own)), dir.pool)
            <==> exists x :: Waiting(env, dir, now, n, x)
  {
    hide KeepOf, Ours, LiveLatest;
    KeptAreLatest(env, dir.logs, now);
    var fold := FoldEligible(prune, conflicts, own);
    var ours := Ours(KeepOf(env, dir.logs, now), own, fold);
    OursMembers(KeepOf(env, dir.logs, now), own, fold, dir.pool);
    if n in AbsentSources(ours, dir.pool) {
      var x :| x in ours && !Resolvable(x, dir.pool) && x.log == n;
      assert Waiting(env, dir, now, n, x);
    }
    if x :| Waiting(env, dir, now, n, x) {
      assert x in ours && !Resolvable(x, dir.pool);
    }
  }

  /** A log is missing after a pass exactly when it is a readable foreign one of a writer asserted dead or a
      conflict copy, but no conflict copy that holds a record waiting for its pool file; our own log exactly when
      nothing is left to write.  The logs that stay are unchanged, and none appears but ours. */
  lemma {:induction false} MissingExactly(env: Env, dir: Dir, own: string, prune: set<string>, conflicts: set<string>,
                                          now: int, n: string)
    requires Lawful(env) && OwnReadable(dir.logs, own)
    ensures var after := Consolidated(env, dir, own, prune, conflicts, now).logs;
            if n == own then n in after <==> exists x :: ToWrite(env, dir, own, prune, conflicts, now, x)
            else
              && (n in after <==>
                    n in dir.logs && !(&& dir.logs[n].readable && (n in prune || n in conflicts)
                                       && !(n in conflicts && exists x :: Waiting(env, dir, now, n, x))))
              && (n in after ==> after[n] == dir.logs[n])
  {
    AfterLogs(env, dir, own, prune, conflicts, now);
    WrittenExactly(env, dir, own, prune, conflicts, now);
    if n == own {
      OwnStaysExactly(env, dir, own, prune, conflicts, now);
    } else {
      if n in prune || n in conflicts { AbsentExactly(env, dir, own, prune, conflicts, now, n); }
      hide Lawful, Consolidated, KeepOf, Ours, AbsentSources, Rewritten, Waiting, FrameAll, AllFaithful;
    }
  }

  lemma {:induction false} OwnStaysExactly(env: Env, dir: Dir, own: string, prune: set<string>, conflicts: set<string>,
                                           now: int)
    requires Lawful(env) && OwnReadable(dir.logs, own)
    ensures own in Consolidated(env, dir, own, prune, conflicts, now).logs
            <==> exists x :: x in Rewritten(env, dir, own, prune, conflicts, now)
  {
    RewrittenAreFaithful(env, dir, own, prune, conflicts, now);
    hide Lawful, KeepOf, Ours, Resolved, AbsentSources, FrameAll, AllFaithful;
    var out := Rewritten(env, dir, own, prune, conflicts, now);
    if out != [] { assert out[0] in out; }
  }

  /** Our log after a pass reads back as exactly the records to write, those of the deleted logs among them, one
      a key and in store-time order. */
  lemma {:induction false} OwnReadsBack(env: Env, dir: Dir, own: string, prune: set<string>, conflicts: set<string>,
                                        now: int)
    requires Lawful(env) && OwnReadable(dir.logs, own)
    ensures var after := Consolidated(env, dir, own, prune, conflicts, now).logs;
            var found := if own in after then ScanLog(env, own, after[own].data) else [];
            && (own in after ==> after[own].readable)
            && (forall x :: ToWrite(env, dir, own, prune, conflicts, now, x) ==>
                exists y :: y in found && y.rec == x.rec)
            && (forall y :: y in found ==>
                exists x :: ToWrite(env, dir, own, prune, conflicts, now, x) && x.rec == y.rec)
            && DistinctKeys(found)
            && forall i, j :: 0 <= i < j < |found| ==> found[i].rec.Time() <= found[j].rec.Time()
  {
    AfterLogs(env, dir, own, prune, conflicts, now);
    WrittenExactly(env, dir, own, prune, conflicts, now);
    WrittenInOrder(env, dir, own, prune, conflicts, now);
    hide Lawful, Consolidated, Rewritten, ScanLog, FrameAll, AllFaithful, ToWrite, Survivors, Gone, DistinctKeys;
    if own in Consolidated(env, dir, own, prune, conflicts, now).logs {
      ReadsBack(env, own, Rewritten(env, dir, own, prune, conflicts, now));
    } else {
      NoneDistinct();
    }
  }

  lemma {:induction false} NoneDistinct()
    ensures DistinctKeys([])
  {}

  /** Records of one key each, written in store-time order, read back so. */
  lemma {:induction false} ReadsBack(env: Env, own: string, out: seq<Located>)
    requires AllFaithful(env, RecordsIn(out)) && DistinctKeys(out)
    requires forall i, j :: 0 <= i < j < |out| ==> out[i].rec.Time() <= out[j].rec.Time()
    ensures var found := ScanLog(env, own, FrameAll(env, RecordsIn(out)));
            && (forall x :: x in out ==> exists y :: y in found && y.rec == x.rec)
            && (forall y :: y in found ==> exists x :: x in out && x.rec == y.rec)
            && DistinctKeys(found)
            && forall i, j :: 0 <= i < j < |found| ==> found[i].rec.Time() <= found[j].rec.Time()
  {
    hide ScanLog, FrameAll, AllFaithful;
    RewrittenPairs(env, own, out);
    RewrittenHold(env, own, out);
    RewrittenComeFrom(env, own, out);
  }

  lemma {:induction false} WrittenInOrder(env: Env, dir: Dir, own: string, prune: set<string>, conflicts: set<string>,
                                          now: int)
    ensures var out := Rewritten(env, dir, own, prune, conflicts, now);
            DistinctKeys(out) && forall i, j :: 0 <= i < j < |out| ==> out[i].rec.Time() <= out[j].rec.Time()
  {
    hide AllItems, LiveWinners, Filter, StableSort;
    var keep, fold := KeepOf(env, dir.logs, now), FoldEligible(prune, conflicts, own);
    LiveWinnersFacts(AllItems(env, dir.logs), now);
    var p := (x: Located) => x.log == own || x.log in fold;
    FilterDistinct(keep, p);
    SortDistinct(Filter(keep, p));
    SortFacts(Filter(keep, p), TimeOf);
    var ours := Ours(keep, own, fold);
    FilterDistinct(ours, (x: Located) => Resolvable(x, dir.pool));
    FilterInOrder(ours, (x: Located) => Resolvable(x, dir.pool));
  }

  lemma {:induction false} FilterInOrder(s: seq<Located>, p: Located -> bool)
    requires SortedBy(s, TimeOf)
    ensures SortedBy(Filter(s, p), TimeOf)
  {
    if s != [] {
      FilterInOrder(s[1..], p);
      var rest := Filter(s[1..], p);
      forall j | 0 <= j < |rest|
        ensures TimeOf(s[0]) <= TimeOf(rest[j])
      {
        assert rest[j] in s[1..];
        var i :| 0 <= i < |s[1..]| && s[1..][i] == rest[j];
        assert s[i + 1] == rest[j];
      }
    }
  }

  /** A pool file is there after a pass exactly when it was and some log could not be read, or it was written or
      touched within the hour, or some live latest record refers to it. */
  lemma {:induction false} CollectedExactly(env: Env, dir: Dir, own: string, prune: set<string>, conflicts: set<string>,
                                            now: int, rel: string)
    requires Lawful(env) && OwnReadable(dir.logs, own) && rel != ""
    ensures var pool := Consolidated(env, dir, own, prune, conflicts, now).pool;
            && (rel in pool <==>
                  && rel in dir.pool
                  && (|| (exists n :: n in dir.logs && !dir.logs[n].readable)
                      || now - dir.pool[rel].touched < 3_600_000_000_000
                      || exists x :: LiveLatest(env, dir.logs, now, x) && x.rec.spill == Some(rel)))
            && (rel in pool ==> pool[rel] == dir.pool[rel])
  {
    PoolAfterPass(env, dir, own, prune, conflicts, now, rel);
    KeptAreLatest(env, dir.logs, now);
    WrittenExactly(env, dir, own, prune, conflicts, now);
    hide Lawful, Consolidated, KeepOf, Rewritten, LiveLatest;
    if rel in dir.pool {
      var keep, out := KeepOf(env, dir.logs, now), Rewritten(env, dir, own, prune, conflicts, now);
      var kept := KeptSpills(keep, out, own, FoldEligible(prune, conflicts, own));
      if rel in kept {
        var x :| x in keep && x.rec.spill == Some(rel);
      }
      if x :| LiveLatest(env, dir.logs, now, x) && x.rec.spill == Some(rel) {
        assert x in keep;
        if x.log == own || x.log in prune || x.log in conflicts { assert x in out; }
      }
      assert Unread(dir.logs) != {} <==> exists n :: n in dir.logs && !dir.logs[n].readable;
    }
  }

  /** A pass that cannot read our log changes nothing. */
  lemma {:induction false} UnreadableOwnStops(env: Env, dir: Dir, own: string, prune: set<string>,
                                              conflicts: set<string>, now: int)
    requires Lawful(env) && !OwnReadable(dir.logs, own)
    ensures Consolidated(env, dir, own, prune, conflicts, now) == dir
  {
    hide Lawful;
  }
}
