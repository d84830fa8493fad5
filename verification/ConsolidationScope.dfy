/** When a consolidation pass changes what the prefix answers. */
module ConsolidationScope {
  import opened Bytes
  import opened Options
  import opened Order
  import opened Pickle
  import opened Frames
  import opened ScanFacts
  import opened Fold
  import opened Store
  import opened Reading
  import opened Compaction
  import opened Consolidation

  /** The logs a pass deletes. */
  function Gone(env: Env, dir: Dir, own: string, prune: set<string>, conflicts: set<string>, now: int): set<string> {
    var fold := FoldEligible(prune, conflicts, own);
    Folded(dir.logs, own, fold, conflicts, AbsentSources(Ours(KeepOf(env, dir.logs, now), own, fold), dir.pool))
  }

  /** The logs a pass leaves alone. */
  function Survivors(logs: map<string, LogFile>, own: string, gone: set<string>): map<string, LogFile> {
    map n | n in logs && n != own && n !in gone :: logs[n]
  }

  /** The key's latest record is dead, or waits for a spill that is not there, and it stands in our log or
      in one the pass deletes: the pass drops it. */
  ghost predicate Drops(env: Env, dir: Dir, own: string, prune: set<string>, conflicts: set<string>, now: int,
                        key: string) {
    var w := Winner(AllItems(env, dir.logs), key);
    && own !in Unread(dir.logs) && w.Some?
    && (!w.value.rec.LiveAt(now) || !Resolvable(w.value, dir.pool))
    && (w.value.log == own || w.value.log in Gone(env, dir, own, prune, conflicts, now))
  }

  /** What the pass writes to our log. */
  function Rewritten(env: Env, dir: Dir, own: string, prune: set<string>, conflicts: set<string>, now: int)
    : seq<Located>
  {
    Resolved(Ours(KeepOf(env, dir.logs, now), own, FoldEligible(prune, conflicts, own)), dir.pool)
  }

  /** The records written are the live winners of our log and the folded ones that are at hand. */
  lemma {:induction false} RewrittenMembers(env: Env, dir: Dir, own: string, prune: set<string>, conflicts: set<string>,
                                            now: int)
    ensures forall x :: x in Rewritten(env, dir, own, prune, conflicts, now) <==>
              && Winner(AllItems(env, dir.logs), x.rec.key) == Some(x) && x.rec.LiveAt(now) && Resolvable(x, dir.pool)
              && (x.log == own || x.log in FoldEligible(prune, conflicts, own))
  {
    hide AllItems, LiveWinners, Ours, Resolved, FoldEligible, Winner;
    LiveWinnersFacts(AllItems(env, dir.logs), now);
    OursMembers(KeepOf(env, dir.logs, now), own, FoldEligible(prune, conflicts, own), dir.pool);
  }

  lemma {:induction false} RewrittenAreFaithful(env: Env, dir: Dir, own: string, prune: set<string>,
                                                conflicts: set<string>, now: int)
    requires Lawful(env)
    ensures AllFaithful(env, RecordsIn(Rewritten(env, dir, own, prune, conflicts, now)))
  {
    hide Lawful, AllFaithful, KeepOf, Ours, Resolved;
    ConsolidatedAreFaithful(env, dir.logs, dir.pool, own, FoldEligible(prune, conflicts, own), now);
  }

  /** The logs after a pass: the survivors, and our log rewritten. */
  lemma {:induction false} AfterLogs(env: Env, dir: Dir, own: string, prune: set<string>, conflicts: set<string>,
                                     now: int)
    requires Lawful(env) && own !in Unread(dir.logs)
    ensures var after := Consolidated(env, dir, own, prune, conflicts, now).logs;
            var gone := Gone(env, dir, own, prune, conflicts, now);
            var out := Rewritten(env, dir, own, prune, conflicts, now);
            && own !in Survivors(dir.logs, own, gone)
            && (forall n :: n != own ==> (n in after <==> n in Survivors(dir.logs, own, gone)))
            && (forall n :: n in Survivors(dir.logs, own, gone) ==>
                n in after && after[n] == Survivors(dir.logs, own, gone)[n])
            && AllFaithful(env, RecordsIn(out))
            && (own in after ==> after[own].readable && after[own].data == FrameAll(env, RecordsIn(out)))
            && (own !in after ==> out == [])
  {
    RewrittenAreFaithful(env, dir, own, prune, conflicts, now);
    hide Lawful, KeepOf, Ours, Resolved, AbsentSources, FrameAll, AllFaithful;
  }

  /** The records after a pass: those of the survivors, and those written to our log. */
  lemma {:induction false} AfterItems(env: Env, dir: Dir, own: string, prune: set<string>, conflicts: set<string>,
                                      now: int)
    requires Lawful(env) && own !in Unread(dir.logs)
    ensures var after := AllItems(env, Consolidated(env, dir, own, prune, conflicts, now).logs);
            var out := Rewritten(env, dir, own, prune, conflicts, now);
            var rest := AllItems(env, Survivors(dir.logs, own, Gone(env, dir, own, prune, conflicts, now)));
            && (forall y :: y in after ==> y in rest || (y.log == own && exists x :: x in out && x.rec == y.rec))
            && (forall y :: y in rest ==> y in after)
            && (forall x :: x in out ==> exists y :: y in after && y.rec == x.rec)
  {
    AfterLogs(env, dir, own, prune, conflicts, now);
    hide Lawful, Consolidated, Gone, Rewritten, AllItems, ScanLog, FrameAll, AllFaithful, Survivors;
    ItemsAcross(env, Consolidated(env, dir, own, prune, conflicts, now).logs, own,
                Survivors(dir.logs, own, Gone(env, dir, own, prune, conflicts, now)),
                Rewritten(env, dir, own, prune, conflicts, now));
  }

  /** A directory of some logs and a log of ours written from `out`. */
  lemma {:induction false} ItemsAcross(env: Env, logs: map<string, LogFile>, own: string, rest: map<string, LogFile>,
                                       out: seq<Located>)
    requires AllFaithful(env, RecordsIn(out)) && own !in rest
    requires forall n :: n != own ==> (n in logs <==> n in rest)
    requires forall n :: n in rest ==> n in logs && logs[n] == rest[n]
    requires own in logs ==> logs[own].readable && logs[own].data == FrameAll(env, RecordsIn(out))
    requires own !in logs ==> out == []
    ensures forall y :: y in AllItems(env, logs) ==>
              y in AllItems(env, rest) || (y.log == own && exists x :: x in out && x.rec == y.rec)
    ensures forall y :: y in AllItems(env, rest) ==> y in AllItems(env, logs)
    ensures forall x :: x in out ==> exists y :: y in AllItems(env, logs) && y.rec == x.rec
  {
    hide AllItems, ScanLog, FrameAll, AllFaithful;
    AllItemsMembers(env, logs);
    AllItemsMembers(env, rest);
    RewrittenComeFrom(env, own, out);
    RewrittenHold(env, own, out);
    forall x | x in out
      ensures exists y :: y in AllItems(env, logs) && y.rec == x.rec
    {
      var y :| y in ScanLog(env, own, FrameAll(env, RecordsIn(out))) && y.rec == x.rec && y.log == own;
      assert y in AllItems(env, logs);
    }
  }

  /** Two sets of records with the same ones for a key, without true ties, have the same latest record. */
  lemma {:induction false} SameLatest(a: seq<Located>, b: seq<Located>, key: string)
    requires TiesIdentical(a)
    requires forall x: Located :: x.rec.key == key ==> (x in a <==> x in b)
    ensures SameRecord(Winner(a, key), Winner(b, key))
  {
    hide Winner;
    WinnerIsNewest(a, key);
    WinnerIsNewest(b, key);
    WinnerHasKey(a, key);
    WinnerHasKey(b, key);
  }

  /** A live winner whose spill is at hand keeps it; nothing appears in the pool. */
  lemma {:induction false} WinnerKeepsSpill(env: Env, dir: Dir, own: string, prune: set<string>, conflicts: set<string>,
                                            now: int, w: Located)
    requires Lawful(env) && own !in Unread(dir.logs)
    requires Winner(AllItems(env, dir.logs), w.rec.key) == Some(w) && w.rec.LiveAt(now)
    ensures var pool := Consolidated(env, dir, own, prune, conflicts, now).pool;
            w.rec.Spilled() ==>
              && (w.rec.spill.value in pool <==> w.rec.spill.value in dir.pool)
              && (w.rec.spill.value in pool ==> pool[w.rec.spill.value] == dir.pool[w.rec.spill.value])
  {
    RewrittenMembers(env, dir, own, prune, conflicts, now);
    LiveWinnersFacts(AllItems(env, dir.logs), now);
    hide Lawful, AllItems, LiveWinners, Winner, Ours, Resolved, AllFaithful, FrameAll, AbsentSources;
    assert w in KeepOf(env, dir.logs, now);
    if w.log == own || w.log in FoldEligible(prune, conflicts, own) {
      if Resolvable(w, dir.pool) { assert w in Rewritten(env, dir, own, prune, conflicts, now); }
    }
  }

  /** A key whose latest record the pass does not drop keeps that record as the latest. */
  lemma {:induction false} KeptStaysLatest(env: Env, dir: Dir, own: string, prune: set<string>, conflicts: set<string>,
                                           now: int, key: string)
    requires Lawful(env) && TiesIdentical(AllItems(env, dir.logs)) && own !in Unread(dir.logs)
    requires !Drops(env, dir, own, prune, conflicts, now, key)
    ensures SameRecord(Winner(AllItems(env, Consolidated(env, dir, own, prune, conflicts, now).logs), key),
                       Winner(AllItems(env, dir.logs), key))
  {
    AfterItems(env, dir, own, prune, conflicts, now);
    RewrittenMembers(env, dir, own, prune, conflicts, now);
    SurvivorItems(env, dir.logs, own, Gone(env, dir, own, prune, conflicts, now));
    var gone := Gone(env, dir, own, prune, conflicts, now);
    assert gone <= FoldEligible(prune, conflicts, own);
    hide Lawful, Consolidated, Gone, Rewritten, AllItems, Winner, Survivors, FoldEligible;
    var items := AllItems(env, dir.logs);
    var after := AllItems(env, Consolidated(env, dir, own, prune, conflicts, now).logs);
    var out := Rewritten(env, dir, own, prune, conflicts, now);
    forall y | y in after
      ensures exists x :: x in items && x.rec == y.rec
    {
      if y !in AllItems(env, Survivors(dir.logs, own, gone)) {
        var x :| x in out && x.rec == y.rec;
        WinnerHasKey(items, x.rec.key);
      }
    }
    WinnerHasKey(items, key);
    WinnerHasKey(after, key);
    WinnerIsNewest(items, key);
    var w := Winner(items, key);
    if w.Some? {
      if w.value.log == own || w.value.log in gone { assert w.value in out; }
      var y :| y in after && y.rec == w.value.rec;
      WinnerByTime(after, y);
    } else {
      WinnerIsNewest(after, key);
    }
  }

  lemma {:induction false} SurvivorItems(env: Env, logs: map<string, LogFile>, own: string, gone: set<string>)
    ensures forall x :: x in AllItems(env, Survivors(logs, own, gone)) <==>
              x in AllItems(env, logs) && x.log != own && x.log !in gone
  {
    hide AllItems, ScanLog;
    AllItemsMembers(env, logs);
    AllItemsMembers(env, Survivors(logs, own, gone));
  }

  /** A key whose latest record the pass drops is left to the survivors. */
  lemma {:induction false} DroppedLeavesSurvivors(env: Env, dir: Dir, own: string, prune: set<string>,
                                                  conflicts: set<string>, now: int, key: string)
    requires Lawful(env) && TiesIdentical(AllItems(env, dir.logs))
    requires Drops(env, dir, own, prune, conflicts, now, key)
    ensures SameRecord(Winner(AllItems(env, Consolidated(env, dir, own, prune, conflicts, now).logs), key),
                       Winner(AllItems(env, Survivors(dir.logs, own, Gone(env, dir, own, prune, conflicts, now))), key))
  {
    AfterItems(env, dir, own, prune, conflicts, now);
    RewrittenMembers(env, dir, own, prune, conflicts, now);
    var gone := Gone(env, dir, own, prune, conflicts, now);
    SurvivorItems(env, dir.logs, own, gone);
    hide Lawful, Consolidated, Gone, Rewritten, AllItems, Winner, Survivors, FoldEligible;
    SameLatest(AllItems(env, Survivors(dir.logs, own, gone)),
               AllItems(env, Consolidated(env, dir, own, prune, conflicts, now).logs), key);
  }

  /** The sweep of a pass spares this pool file: some log was unreadable, a live record that stays refers to it,
      or it is young. */
  predicate Outlasts(env: Env, dir: Dir, own: string, prune: set<string>, conflicts: set<string>, now: int, rel: string)
    requires rel in dir.pool
  {
    || Unread(dir.logs) != {}
    || rel in KeptSpills(KeepOf(env, dir.logs, now), Rewritten(env, dir, own, prune, conflicts, now), own,
                         FoldEligible(prune, conflicts, own))
    || now - dir.pool[rel].touched < GRACE
  }

  /** The logs that a pass leaves alone answer the key at `t`: their latest record is live, and holds its value or
      refers to a pool file that loads here and that the sweep spares. */
  ghost predicate SurvivorsAnswer(env: Env, dir: Dir, own: string, prune: set<string>, conflicts: set<string>, now: int,
                                  key: string, t: int) {
    var w := Winner(AllItems(env, Survivors(dir.logs, own, Gone(env, dir, own, prune, conflicts, now))), key);
    && w.Some? && w.value.rec.LiveAt(t)
    && if w.value.rec.Spilled() then
         && SpillRead(env, dir.pool, w.value.rec.spill.value).Some?
         && Outlasts(env, dir, own, prune, conflicts, now, w.value.rec.spill.value)
       else w.value.rec.value.Inline?
  }

  lemma {:induction false} PoolAfterPass(env: Env, dir: Dir, own: string, prune: set<string>, conflicts: set<string>,
                                         now: int, rel: string)
    requires Lawful(env) && own !in Unread(dir.logs)
    ensures var pool := Consolidated(env, dir, own, prune, conflicts, now).pool;
            && (rel in pool <==> rel in dir.pool && Outlasts(env, dir, own, prune, conflicts, now, rel))
            && (rel in pool ==> pool[rel] == dir.pool[rel])
  {
    hide Lawful, KeepOf, Ours, Resolved, AbsentSources, AllFaithful, FrameAll, KeptSpills;
  }

  /** What the survivors answer from the pool that the pass leaves can be told beforehand. */
  lemma {:induction false} SurvivorsAnswerAfter(env: Env, dir: Dir, own: string, prune: set<string>,
                                                conflicts: set<string>, now: int, key: string, t: int)
    requires Lawful(env) && own !in Unread(dir.logs)
    ensures var survivors := Survivors(dir.logs, own, Gone(env, dir, own, prune, conflicts, now));
            ScanAnswer(env, survivors, Consolidated(env, dir, own, prune, conflicts, now).pool, key, t).Some?
            <==> SurvivorsAnswer(env, dir, own, prune, conflicts, now, key, t)
  {
    var w := Winner(AllItems(env, Survivors(dir.logs, own, Gone(env, dir, own, prune, conflicts, now))), key);
    hide Lawful, Consolidated, AllItems, Winner, Survivors, Gone, Outlasts;
    if w.Some? && w.value.rec.Spilled() {
      PoolAfterPass(env, dir, own, prune, conflicts, now, w.value.rec.spill.value);
    }
  }

  /** A pass keeps a key's answer, at its time and at all later times, if and only if it does not both drop
      the key's latest record and leave logs that answer; both can be told from the directory before the pass. */
  lemma {:induction false} AnswerUnderConsolidation(env: Env, dir: Dir, own: string, prune: set<string>,
                                                    conflicts: set<string>, now: int, key: string, t: int)
    requires Lawful(env) && TiesIdentical(AllItems(env, dir.logs)) && t >= now
    ensures var after := Consolidated(env, dir, own, prune, conflicts, now);
            ScanAnswer(env, after.logs, after.pool, key, t) == ScanAnswer(env, dir.logs, dir.pool, key, t)
            <==> !(&& Drops(env, dir, own, prune, conflicts, now, key)
                   && SurvivorsAnswer(env, dir, own, prune, conflicts, now, key, t))
  {
    hide Lawful, AllItems, Winner, Survivors, Gone, TiesIdentical, SurvivorsAnswer;
    var w := Winner(AllItems(env, dir.logs), key);
    WinnerHasKey(AllItems(env, dir.logs), key);
    if w.Some? && w.value.rec.LiveAt(t) { DeadStaysDead(w.value.rec, now, t); }
    if own in Unread(dir.logs) {
      assert Consolidated(env, dir, own, prune, conflicts, now) == dir;
    } else if Drops(env, dir, own, prune, conflicts, now, key) {
      DroppedLeavesSurvivors(env, dir, own, prune, conflicts, now, key);
      SurvivorsAnswerAfter(env, dir, own, prune, conflicts, now, key, t);
      hide Consolidated, Drops;
    } else {
      KeptStaysLatest(env, dir, own, prune, conflicts, now, key);
      if w.Some? && w.value.rec.LiveAt(now) { WinnerKeepsSpill(env, dir, own, prune, conflicts, now, w.value); }
      hide Consolidated, Drops;
    }
  }
}
