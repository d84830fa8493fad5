/** A pass that nobody disturbs, step by step: it can run to its end, and leaves what a whole pass leaves. */
module SoloPass {
  import opened Bytes
  import opened Options
  import opened Order
  import opened Pickle
  import opened Frames
  import opened ScanFacts
  import opened Fold
  import opened Store
  import opened Compaction
  import opened Consolidation
  import opened Passes
  import opened ConcurrentPasses

  /** Some steps lead from one state to the other. */
  ghost predicate Reaches(c: Config, s: State, s': State, n: nat)
    requires Lawful(c.env)
    decreases n
  {
    if n == 0 then s' == s else exists mid, step :: NextBy(c, s, mid, step) && Reaches(c, mid, s', n - 1)
  }

  lemma {:induction false} Then(c: Config, s: State, mid: State, step: Step, s': State, n: nat)
    requires Lawful(c.env) && NextBy(c, s, mid, step) && Reaches(c, mid, s', n)
    ensures Reaches(c, s, s', n + 1)
  {
    hide NextBy, Lawful;
  }

  lemma {:induction false} Composed(c: Config, s: State, mid: State, s': State, m: nat, n: nat)
    requires Lawful(c.env) && Reaches(c, s, mid, m) && Reaches(c, mid, s', n)
    ensures Reaches(c, s, s', m + n)
    decreases m
  {
    hide NextBy, Lawful;
    if m > 0 {
      var next, step :| NextBy(c, s, next, step) && Reaches(c, next, mid, m - 1);
      Composed(c, next, mid, s', m - 1, n);
      Then(c, s, next, step, s', m - 1 + n);
    }
  }

  // ------------------------------------------------------------------ gathering

  /** These logs as they were stat'ed. */
  function Part(logs: map<string, LogFile>, names: set<string>): map<string, LogFile> {
    map n | n in logs && n in names :: logs[n]
  }

  /** These logs as they were read; what cannot be read is empty. */
  function SeenOf(logs: map<string, LogFile>, names: set<string>): map<string, LogFile> {
    map n | n in logs && n in names :: if logs[n].readable then logs[n] else LogFile([], false, 0)
  }

  lemma {:induction false} StatAll(c: Config, s: State, now: int, names: set<string>) returns (n: nat)
    requires Lawful(c.env) && names <= s.logs.Keys && s.pass == Gathering(now, Part(s.logs, names), map[])
    ensures Reaches(c, s, s.(pass := Gathering(now, s.logs, map[])), n)
    decreases s.logs.Keys - names
  {
    hide Lawful;
    var done := s.(pass := Gathering(now, s.logs, map[]));
    var rest := s.logs.Keys - names;
    if rest == {} {
      assert names == s.logs.Keys && Part(s.logs, names) == s.logs;
      n := 0;
    } else {
      var k :| k in rest;
      var next := s.(pass := Gathering(now, Part(s.logs, names + {k}), map[]));
      assert Part(s.logs, names)[k := s.logs[k]] == Part(s.logs, names + {k});
      assert StatLog(s, next, k);
      var m := StatAll(c, next, now, names + {k});
      Then(c, s, next, StatStep(k), done, m);
      n := m + 1;
    }
  }

  lemma {:induction false} ReadAll(c: Config, s: State, now: int, names: set<string>) returns (n: nat)
    requires Lawful(c.env) && names <= s.logs.Keys && s.pass == Gathering(now, s.logs, SeenOf(s.logs, names))
    ensures Reaches(c, s, s.(pass := Gathering(now, s.logs, SeenOf(s.logs, s.logs.Keys))), n)
    decreases s.logs.Keys - names
  {
    hide Lawful;
    var done := s.(pass := Gathering(now, s.logs, SeenOf(s.logs, s.logs.Keys)));
    var rest := s.logs.Keys - names;
    if rest == {} {
      assert names == s.logs.Keys;
      n := 0;
    } else {
      var k :| k in rest;
      var next := s.(pass := Gathering(now, s.logs, SeenOf(s.logs, names + {k})));
      var file := if s.logs[k].readable then s.logs[k] else LogFile([], false, 0);
      assert SeenOf(s.logs, names)[k := file] == SeenOf(s.logs, names + {k});
      assert ReadLog(s, next, k, s.logs[k].readable);
      var m := ReadAll(c, next, now, names + {k});
      Then(c, s, next, ReadStep(k, s.logs[k].readable), done, m);
      n := m + 1;
    }
  }

  lemma {:induction false} GatherSeen(env: Env, logs: map<string, LogFile>, names: seq<string>)
    requires forall n :: n in names ==> n in logs
    ensures Gather(env, SeenOf(logs, logs.Keys), names) == Gather(env, logs, names)
  {
    hide ScanLog;
    if names != [] {
      var last := names[|names| - 1];
      assert last in names;
      GatherSeen(env, logs, names[..|names| - 1]);
    }
  }

  lemma {:induction false} KeepSeen(env: Env, logs: map<string, LogFile>, now: int)
    ensures KeepOf(env, SeenOf(logs, logs.Keys), now) == KeepOf(env, logs, now)
    ensures Unread(SeenOf(logs, logs.Keys)) == Unread(logs)
  {
    hide LiveWinners, Gather, SortedNames;
    assert SeenOf(logs, logs.Keys).Keys == logs.Keys;
    GatherSeen(env, logs, SortedNames(logs.Keys));
  }

  lemma {:induction false} FilterSame(s: seq<Located>, p: Located -> bool, q: Located -> bool)
    requires forall x :: x in s ==> p(x) == q(x)
    ensures Filter(s, p) == Filter(s, q)
  {
    if s != [] { FilterSame(s[1..], p, q); }
  }

  /** The conflict copies there are. */
  function Copies(c: Config, logs: map<string, LogFile>): set<string> {
    set n | n in logs && c.isConflict(n)
  }

  /** The pass answers for the same records. */
  lemma {:induction false} OursSeen(c: Config, logs: map<string, LogFile>, now: int)
    ensures OursIn(c, SeenOf(logs, logs.Keys), now)
            == Ours(KeepOf(c.env, logs, now), c.own, FoldEligible(c.prune, Copies(c, logs), c.own))
  {
    hide AllItems, LiveWinners, Winner, StableSort;
    KeepSeen(c.env, logs, now);
    var keep, fold := KeepOf(c.env, logs, now), FoldEligible(c.prune, Copies(c, logs), c.own);
    var seen := FoldOf(c, SeenOf(logs, logs.Keys));
    LiveWinnersFacts(AllItems(c.env, logs), now);
    KeptInLogs(c.env, logs, now);
    FilterSame(keep, (x: Located) => x.log == c.own || x.log in seen, (x: Located) => x.log == c.own || x.log in fold);
  }

  lemma {:induction false} KeptInLogs(env: Env, logs: map<string, LogFile>, now: int)
    ensures forall x :: x in KeepOf(env, logs, now) ==> x.log in logs
  {
    hide AllItems, LiveWinners, Winner, ScanLog;
    LiveWinnersFacts(AllItems(env, logs), now);
    AllItemsMembers(env, logs);
    forall x | x in KeepOf(env, logs, now)
      ensures x.log in logs
    { WinnerHasKey(AllItems(env, logs), x.rec.key); }
  }

  // ------------------------------------------------------------------ pruning

  /** The prune takes this log. */
  predicate Goes(c: Config, logs: map<string, LogFile>, snap: map<string, LogFile>, keepSources: set<string>, n: string)
  {
    c.Eligible(n) && n !in keepSources && n in logs && n in snap && Identity(logs[n]) == Identity(snap[n])
  }

  function Left(c: Config, logs: map<string, LogFile>, snap: map<string, LogFile>, keepSources: set<string>,
                todo: set<string>): map<string, LogFile> {
    map n | n in logs && !(n in todo && Goes(c, logs, snap, keepSources, n)) :: logs[n]
  }

  lemma {:induction false} PruneAll(c: Config, s: State, now: int, snap: map<string, LogFile>,
                                    seen: map<string, LogFile>, keepSources: set<string>, todo: set<string>)
    returns (n: nat)
    requires Lawful(c.env) && s.pass == Pruning(now, snap, seen, keepSources, todo) && todo <= snap.Keys
    ensures Reaches(c, s, s.(logs := Left(c, s.logs, snap, keepSources, todo),
                             pass := Pruning(now, snap, seen, keepSources, {})), n)
    decreases todo
  {
    hide Lawful, Identity;
    var done := s.(logs := Left(c, s.logs, snap, keepSources, todo), pass := Pruning(now, snap, seen, keepSources, {}));
    if todo == {} {
      assert Left(c, s.logs, snap, keepSources, todo) == s.logs;
      n := 0;
    } else {
      var k :| k in todo;
      var logs := if Goes(c, s.logs, snap, keepSources, k) then s.logs - {k} else s.logs;
      var next := s.(logs := logs, pass := Pruning(now, snap, seen, keepSources, todo - {k}));
      assert PruneOne(c, s, next, k);
      assert Left(c, logs, snap, keepSources, todo - {k}) == Left(c, s.logs, snap, keepSources, todo);
      var m := PruneAll(c, next, now, snap, seen, keepSources, todo - {k});
      Then(c, s, next, PruneStep(k), done, m);
      n := m + 1;
    }
  }

  // ------------------------------------------------------------------ the whole pass

  /** After the rewrite: our log written, everything else as it was, and what is to be kept told. */
  ghost predicate Written(c: Config, s: State, now: int, s': State)
    requires Lawful(c.env)
  {
    var ours := Ours(KeepOf(c.env, s.logs, now), c.own, FoldEligible(c.prune, Copies(c, s.logs), c.own));
    ConsolidatedAreFaithful(c.env, s.logs, s.pool, c.own, FoldEligible(c.prune, Copies(c, s.logs), c.own), now);
    && s'.logs == WithOwnRewritten(c.env, s.logs, c.own, Resolved(ours, s.pool), now)
    && s'.pool == s.pool
    && s'.pass == Pruning(now, s.logs, SeenOf(s.logs, s.logs.Keys),
                          Unread(s.logs) + (set n | n in AbsentSources(ours, s.pool) && c.isConflict(n)), s.logs.Keys)
  }

  lemma {:induction false} RewriteReached(c: Config, s: State, now: int) returns (s': State)
    requires Lawful(c.env) && s.pass == Gathering(now, s.logs, SeenOf(s.logs, s.logs.Keys))
    requires c.own in s.logs ==> s.logs[c.own].readable
    ensures Rewrite(c, s, s', now) && Written(c, s, now, s')
  {
    var seen := SeenOf(s.logs, s.logs.Keys);
    var ours := OursIn(c, seen, now);
    OursSeen(c, s.logs, now);
    KeepSeen(c.env, s.logs, now);
    hide Lawful, KeepOf, Ours, Resolved, AbsentSources, AllFaithful, FrameAll, SeenOf;
    ConsolidatedAreFaithful(c.env, seen, s.pool, c.own, FoldOf(c, seen), now);
    assert seen.Keys == s.logs.Keys && (c.own in seen ==> seen[c.own].readable) by { SeenKeys(s.logs); }
    s' := s.(logs := WithOwnRewritten(c.env, s.logs, c.own, Resolved(ours, s.pool), now),
             dropped := s.dropped + (set x | x in ours && !Resolvable(x, s.pool) && !c.Waits(x.log) :: x.rec),
             pass := Pruning(now, s.logs, seen,
                             Unread(seen) + (set n | n in AbsentSources(ours, s.pool) && c.isConflict(n)),
                             s.logs.Keys));
  }

  lemma {:induction false} SeenKeys(logs: map<string, LogFile>)
    ensures SeenOf(logs, logs.Keys).Keys == logs.Keys
    ensures forall n :: n in logs ==> SeenOf(logs, logs.Keys)[n].readable == logs[n].readable
  {}

  /** What the prune leaves is what a whole pass leaves. */
  lemma {:induction false} LeftIsConsolidated(c: Config, s: State, now: int, s': State)
    requires Lawful(c.env) && Written(c, s, now, s') && (c.own in s.logs ==> s.logs[c.own].readable)
    ensures Left(c, s'.logs, s.logs, s'.pass.keepSources, s.logs.Keys)
            == Consolidated(c.env, Dir(s.logs, s.pool), c.own, c.prune, Copies(c, s.logs), now).logs
  {
    hide Lawful, KeepOf, Ours, Resolved, AbsentSources, AllFaithful, FrameAll;
    var left := Left(c, s'.logs, s.logs, s'.pass.keepSources, s.logs.Keys);
    var after := Consolidated(c.env, Dir(s.logs, s.pool), c.own, c.prune, Copies(c, s.logs), now).logs;
    forall n
      ensures n in left <==> n in after
      ensures n in left ==> left[n] == after[n]
    {}
  }

  lemma {:induction false} Begins(c: Config, s: State, now: int)
    requires Lawful(c.env) && s.pass.Idle? && now <= s.clock
    ensures NextBy(c, s, s.(pass := Gathering(now, map[], map[])), BeginStep(now))
    ensures Part(s.logs, {}) == map[] && SeenOf(s.logs, {}) == map[]
  {
    hide Lawful;
  }

  lemma {:induction false} Gathers(c: Config, s: State, now: int) returns (s': State, n: nat)
    requires Lawful(c.env) && s.pass.Idle? && now <= s.clock
    ensures Reaches(c, s, s', n) && s' == s.(pass := Gathering(now, s.logs, SeenOf(s.logs, s.logs.Keys)))
  {
    var s1 := s.(pass := Gathering(now, map[], map[]));
    Begins(c, s, now);
    hide Lawful, SeenOf, Part, Reaches, NextBy;
    var m1 := StatAll(c, s1, now, {});
    var m2 := ReadAll(c, s.(pass := Gathering(now, s.logs, map[])), now, {});
    s' := s.(pass := Gathering(now, s.logs, SeenOf(s.logs, s.logs.Keys)));
    Composed(c, s1, s.(pass := Gathering(now, s.logs, map[])), s', m1, m2);
    Then(c, s, s1, BeginStep(now), s', m1 + m2);
    n := m1 + m2 + 1;
  }

  lemma {:induction false} Finishes(c: Config, s: State, now: int, snap: map<string, LogFile>,
                                    seen: map<string, LogFile>, keepSources: set<string>)
    returns (s': State, n: nat)
    requires Lawful(c.env) && s.pass == Pruning(now, snap, seen, keepSources, snap.Keys)
    ensures Reaches(c, s, s', n) && s' == s.(pass := Idle, logs := Left(c, s.logs, snap, keepSources, snap.Keys))
  {
    hide Lawful, Left, Reaches;
    var m := PruneAll(c, s, now, snap, seen, keepSources, snap.Keys);
    var pruned := s.(logs := Left(c, s.logs, snap, keepSources, snap.Keys),
                     pass := Pruning(now, snap, seen, keepSources, {}));
    s' := s.(pass := Idle, logs := Left(c, s.logs, snap, keepSources, snap.Keys));
    assert Finish(pruned, s');
    Nowhere(c, s');
    Then(c, pruned, s', FinishStep, s', 0);
    Composed(c, s, pruned, s', m, 1);
    n := m + 1;
  }

  lemma {:induction false} Nowhere(c: Config, s: State)
    requires Lawful(c.env)
    ensures Reaches(c, s, s, 0)
  {}

  /** From any state between passes, a pass that nobody disturbs can run to its end, and leaves the logs as a whole
      pass does. */
  lemma {:induction false} RunsToItsEnd(c: Config, s: State, now: int) returns (s': State, n: nat)
    requires Lawful(c.env) && s.pass.Idle? && now <= s.clock && (c.own in s.logs ==> s.logs[c.own].readable)
    ensures Reaches(c, s, s', n) && s'.pass.Idle? && s'.pool == s.pool
    ensures s'.logs == Consolidated(c.env, Dir(s.logs, s.pool), c.own, c.prune, Copies(c, s.logs), now).logs
  {
    var gathered, m := Gathers(c, s, now);
    var rewritten := RewriteReached(c, gathered, now);
    LeftIsConsolidated(c, gathered, now, rewritten);
    WrittenParts(c, gathered, now, rewritten);
    hide Lawful, Consolidated, SeenOf, Rewrite, Left, Reaches, Written;
    var k;
    s', k := Finishes(c, rewritten, now, s.logs, SeenOf(s.logs, s.logs.Keys), rewritten.pass.keepSources);
    Then(c, gathered, rewritten, RewriteStep(now), s', k);
    Composed(c, s, gathered, s', m, k + 1);
    n := m + k + 1;
  }

  lemma {:induction false} WrittenParts(c: Config, s: State, now: int, s': State)
    requires Lawful(c.env) && Written(c, s, now, s')
    ensures s'.pass.Pruning? && s'.pool == s.pool
    ensures s'.pass == Pruning(now, s.logs, SeenOf(s.logs, s.logs.Keys), s'.pass.keepSources, s.logs.Keys)
  {
    hide Lawful, AllFaithful, FrameAll, AbsentSources, Ours, Resolved;
  }
}
