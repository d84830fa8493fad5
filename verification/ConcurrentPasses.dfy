/**
 Consolidation passes of one writer while its peers keep appending.

 A pass stats the logs, reads them one by one, rewrites its own log, then re-stats and unlinks the
 foldable ones one by one; between any two of these steps peers may append to their logs or start
 new ones, reads may fail, spills may arrive, and the clock moves.  Our own appends wait for the
 writer lock, so they happen between passes.
 */
module ConcurrentPasses {
  import opened Bytes
  import opened Options
  import opened Order
  import opened Pickle
  import opened Frames
  import opened ScanFacts
  import opened Fold
  import opened Store
  import opened Compaction
  import opened Consolidation
  import opened Passes

  /** What is fixed for a run: the environment, our log, the writers asserted dead, and which names
      are conflict copies. */
  datatype Config = Config(env: Env, own: string, prune: set<string>, isConflict: string -> bool) {
    predicate Eligible(n: string) {
      n != own && (n in prune || isConflict(n))
    }

    /** A conflict copy waits for the spills of its records. */
    predicate Waits(n: string) {
      n != own && isConflict(n)
    }
  }

  datatype Pass =
    | Idle
    | Gathering(now: int, snap: map<string, LogFile>, seen: map<string, LogFile>)
    | Pruning(now: int, snap: map<string, LogFile>, seen: map<string, LogFile>, keepSources: set<string>,
              todo: set<string>)

  /** `ever` holds every record that was ever in a log, `made` the logs as writers other than our
      passes left them, `dropped` the records of our log or a pruned one that a pass dropped because
      their spill had not arrived, `torn` the records that an append behind a torn tail made unreadable. */
  datatype State = State(
    clock: int,
    logs: map<string, LogFile>,
    pool: map<string, PoolFile>,
    pass: Pass,
    ever: set<Record>,
    made: map<string, LogFile>,
    dropped: set<Record>,
    torn: set<Record>)

  /** The records a scan of these bytes finds. */
  function Recs(env: Env, data: bytes): set<Record> {
    set s | s in Walk(env, data, 0) :: s.rec
  }

  ghost predicate Ties(rs: set<Record>) {
    forall a, b :: a in rs && b in rs && a.key == b.key && a.Time() == b.Time() ==> a == b
  }

  // ------------------------------------------------------------------ steps of others

  ghost predicate Tick(s: State, s': State) {
    s' == s.(clock := s'.clock) && s.clock <= s'.clock
  }

  ghost predicate SpillArrives(s: State, s': State) {
    s' == s.(pool := s'.pool) && s.pool.Keys <= s'.pool.Keys
  }

  /** The bytes of a log, which may not exist yet. */
  function DataOf(s: State, n: string): bytes {
    if n in s.logs then s.logs[n].data else []
  }

  /** The records that could be read in these bytes, and cannot with more behind them: `TearFreeLosesNone`
      says that there are none in a log without a torn tail. */
  function Unsettled(env: Env, data: bytes, extra: bytes): set<Record> {
    Recs(env, data) - Recs(env, data + extra)
  }

  /** A writer adds bytes to a log, or starts one. */
  ghost predicate AppendTo(c: Config, s: State, s': State, n: string, extra: bytes, mtime: int) {
    var file := LogFile(DataOf(s, n) + extra, true, mtime);
    && extra != []
    && s' == s.(logs := s.logs[n := file], ever := s.ever + Recs(c.env, file.data), made := s.made[n := file],
                torn := s.torn + Unsettled(c.env, DataOf(s, n), extra))
  }

  ghost predicate PeerAppends(c: Config, s: State, s': State, n: string, extra: bytes, mtime: int) {
    n != c.own && AppendTo(c, s, s', n, extra, mtime)
  }

  ghost predicate OwnAppends(c: Config, s: State, s': State, extra: bytes, mtime: int) {
    s.pass.Idle? && AppendTo(c, s, s', c.own, extra, mtime)
  }

  // ------------------------------------------------------------------ steps of a pass

  /** The pass reads the clock before it takes the lock. */
  ghost predicate Begin(s: State, s': State, now: int) {
    s.pass.Idle? && now <= s.clock && s' == s.(pass := Gathering(now, map[], map[]))
  }

  /** `_snapshot_sources`, one stat; a log that cannot be stat'ed is passed over as unreadable. */
  ghost predicate StatLog(s: State, s': State, n: string) {
    && s.pass.Gathering? && n in s.logs && n !in s.pass.snap
    && s' == s.(pass := Gathering(s.pass.now, s.pass.snap[n := s.logs[n]], s.pass.seen))
  }

  ghost predicate ReadLog(s: State, s': State, n: string, ok: bool) {
    && s.pass.Gathering? && n in s.pass.snap && n !in s.pass.seen && (ok ==> n in s.logs)
    && s' == s.(pass := Gathering(s.pass.now, s.pass.snap,
                                s.pass.seen[n := if ok then s.logs[n].(readable := true) else LogFile([], false, 0)]))
  }

  ghost predicate Abort(c: Config, s: State, s': State) {
    && s.pass.Gathering? && c.own in s.logs && (c.own !in s.pass.seen || !s.pass.seen[c.own].readable)
    && s' == s.(pass := Idle)
  }

  /** The fold-eligible names among these. */
  function FoldOf(c: Config, seen: map<string, LogFile>): set<string> {
    set n | n in seen && c.Eligible(n)
  }

  /** The records this pass answers for, and those of them it can resolve. */
  function OursIn(c: Config, seen: map<string, LogFile>, now: int): seq<Located> {
    Ours(KeepOf(c.env, seen, now), c.own, FoldOf(c, seen))
  }

  ghost predicate Rewrite(c: Config, s: State, s': State, mtime: int)
    requires Lawful(c.env)
  {
    && s.pass.Gathering? && s.pass.snap.Keys == s.pass.seen.Keys
    && (c.own in s.logs ==> c.own in s.pass.seen && s.pass.seen[c.own].readable)
    && var ours := OursIn(c, s.pass.seen, s.pass.now);
       var consolidated := Resolved(ours, s.pool);
       var absent := AbsentSources(ours, s.pool);
       ConsolidatedAreFaithful(c.env, s.pass.seen, s.pool, c.own, FoldOf(c, s.pass.seen), s.pass.now);
       var keepSources := Unread(s.pass.seen) + (set n | n in absent && c.isConflict(n));
       s' == s.(logs := WithOwnRewritten(c.env, s.logs, c.own, consolidated, mtime),
                dropped := s.dropped + (set x | x in ours && !Resolvable(x, s.pool) && !c.Waits(x.log) :: x.rec),
                pass := Pruning(s.pass.now, s.pass.snap, s.pass.seen, keepSources, s.pass.snap.Keys))
  }

  /** `_prune_consolidated_sources`, one re-stat and unlink. */
  ghost predicate PruneOne(c: Config, s: State, s': State, n: string) {
    && s.pass.Pruning? && n in s.pass.todo && n in s.pass.snap
    && var unlink := && c.Eligible(n) && n !in s.pass.keepSources
                     && n in s.logs && Identity(s.logs[n]) == Identity(s.pass.snap[n]);
       s' == s.(logs := if unlink then s.logs - {n} else s.logs,
                pass := Pruning(s.pass.now, s.pass.snap, s.pass.seen, s.pass.keepSources, s.pass.todo - {n}))
  }

  ghost predicate Finish(s: State, s': State) {
    s.pass.Pruning? && s.pass.todo == {} && s' == s.(pass := Idle)
  }

  datatype Step =
    | TickStep | SpillStep
    | PeerStep(n: string, extra: bytes, mtime: int)
    | OwnStep(extra: bytes, mtime: int)
    | BeginStep(now: int) | StatStep(n: string) | ReadStep(n: string, ok: bool) | AbortStep
    | RewriteStep(mtime: int) | PruneStep(n: string) | FinishStep

  ghost predicate NextBy(c: Config, s: State, s': State, step: Step)
    requires Lawful(c.env)
  {
    match step
    case TickStep => Tick(s, s')
    case SpillStep => SpillArrives(s, s')
    case PeerStep(n, extra, mtime) => PeerAppends(c, s, s', n, extra, mtime)
    case OwnStep(extra, mtime) => OwnAppends(c, s, s', extra, mtime)
    case BeginStep(now) => Begin(s, s', now)
    case StatStep(n) => StatLog(s, s', n)
    case ReadStep(n, ok) => ReadLog(s, s', n, ok)
    case AbortStep => Abort(c, s, s')
    case RewriteStep(mtime) => Rewrite(c, s, s', mtime)
    case PruneStep(n) => PruneOne(c, s, s', n)
    case FinishStep => Finish(s, s')
  }

  /** Any directory may be a start, between passes. */
  ghost predicate Init(c: Config, s: State) {
    && s.pass.Idle? && s.made == s.logs && s.dropped == {} && s.torn == {}
    && s.ever == (set n, r | n in s.logs && r in Recs(c.env, s.logs[n].data) :: r)
  }

  // ------------------------------------------------------------------ kept by any appends, torn or not

  /** What a pass knows of a log's bytes: they only grew since they were stat'ed and read. */
  ghost predicate Grew(logs: map<string, LogFile>, snap: map<string, LogFile>, seen: map<string, LogFile>, n: string) {
    && n in snap && n in logs && snap[n].data <= logs[n].data
    && (n in seen && seen[n].readable ==> snap[n].data <= seen[n].data <= logs[n].data)
  }

  /** Logs that are neither ours nor foldable are as their writers made them, and the logs a pass may
      still delete only grew. */
  ghost predicate BytesInv(c: Config, s: State) {
    && (forall n :: n != c.own && !c.Eligible(n) ==>
        (n in s.logs <==> n in s.made) && (n in s.logs ==> s.logs[n] == s.made[n]))
    && match s.pass
       case Idle => true
       case Gathering(_, snap, seen) =>
         seen.Keys <= snap.Keys && forall n :: n in snap ==> Grew(s.logs, snap, seen, n)
       case Pruning(_, snap, seen, keepSources, todo) =>
         && seen.Keys == snap.Keys && todo <= snap.Keys
         && (forall n :: n in seen && !seen[n].readable ==> n in keepSources)
         && (forall n :: n in todo && n != c.own ==> Grew(s.logs, snap, seen, n))
  }

  lemma {:induction false} AppendGrows(c: Config, s: State, s': State, n: string, extra: bytes, mtime: int, k: string)
    requires AppendTo(c, s, s', n, extra, mtime) && !s.pass.Idle? && Grew(s.logs, s.pass.snap, s.pass.seen, k)
    ensures Grew(s'.logs, s.pass.snap, s.pass.seen, k)
  {
    hide Recs;
  }

  lemma {:induction false} AppendKeepsBytes(c: Config, s: State, s': State, n: string, extra: bytes, mtime: int)
    requires BytesInv(c, s) && AppendTo(c, s, s', n, extra, mtime)
    requires n == c.own ==> s.pass.Idle?
    ensures BytesInv(c, s')
  {
    hide Recs, Grew;
    if !s.pass.Idle? {
      forall k | Grew(s.logs, s.pass.snap, s.pass.seen, k)
        ensures Grew(s'.logs, s.pass.snap, s.pass.seen, k)
      { AppendGrows(c, s, s', n, extra, mtime, k); }
    }
  }

  /** A log is deleted only with exactly the bytes the pass has read from it: anything appended to it
      since would have moved its size. */
  lemma {:induction false} PrunedWasRead(c: Config, s: State, s': State, n: string)
    requires BytesInv(c, s) && PruneOne(c, s, s', n) && n in s.logs && n !in s'.logs
    ensures n in s.pass.seen && s.pass.seen[n].readable && s.pass.seen[n].data == s.logs[n].data
  {
    assert Grew(s.logs, s.pass.snap, s.pass.seen, n);
  }

  lemma {:induction false} PruneKeepsBytes(c: Config, s: State, s': State, n: string)
    requires BytesInv(c, s) && PruneOne(c, s, s', n)
    ensures BytesInv(c, s')
  {
    forall k | k in s'.pass.todo && k != c.own
      ensures Grew(s'.logs, s'.pass.snap, s'.pass.seen, k)
    { assert Grew(s.logs, s.pass.snap, s.pass.seen, k); }
  }

  lemma {:induction false} PassKeepsBytes(c: Config, s: State, s': State, step: Step)
    requires Lawful(c.env) && BytesInv(c, s) && NextBy(c, s, s', step)
    requires step.StatStep? || step.ReadStep?
    ensures BytesInv(c, s')
  {
    forall k | k in s'.pass.snap
      ensures Grew(s'.logs, s'.pass.snap, s'.pass.seen, k)
    { assert k in s.pass.snap ==> Grew(s.logs, s.pass.snap, s.pass.seen, k); }
  }

  lemma {:induction false} RewriteKeepsBytes(c: Config, s: State, s': State, mtime: int)
    requires Lawful(c.env) && BytesInv(c, s) && Rewrite(c, s, s', mtime)
    ensures BytesInv(c, s')
  {
    hide Rewrite, Lawful;
    RewriteFrame(c, s, s', mtime);
    forall n | n in s'.pass.todo && n != c.own
      ensures Grew(s'.logs, s'.pass.snap, s'.pass.seen, n)
    { assert Grew(s.logs, s.pass.snap, s.pass.seen, n); }
    assert forall n :: n in s.pass.seen && !s.pass.seen[n].readable ==> n in Unread(s.pass.seen);
  }

  lemma {:induction false} StepKeepsBytes(c: Config, s: State, s': State, step: Step)
    requires Lawful(c.env) && BytesInv(c, s) && NextBy(c, s, s', step)
    ensures BytesInv(c, s')
  {
    hide Lawful, AppendTo, Rewrite, PruneOne, Recs, Grew;
    match step
    case PeerStep(n, extra, mtime) => AppendKeepsBytes(c, s, s', n, extra, mtime);
    case OwnStep(extra, mtime) => AppendKeepsBytes(c, s, s', c.own, extra, mtime);
    case RewriteStep(mtime) => RewriteKeepsBytes(c, s, s', mtime);
    case PruneStep(n) => PruneKeepsBytes(c, s, s', n);
    case StatStep(_) => PassKeepsBytes(c, s, s', step);
    case ReadStep(_, _) => PassKeepsBytes(c, s, s', step);
    case _ =>
  }

  // ------------------------------------------------------------------ what is kept

  /** No record ever written for the key is newer, it is live, no pass had to drop it, and no append behind a torn
      tail hid it. */
  ghost predicate Matters(s: State, r: Record) {
    && r in s.ever && r !in s.dropped && r !in s.torn && r.LiveAt(s.clock)
    && forall q :: q in s.ever && q.key == r.key ==> q.Time() <= r.Time()
  }

  ghost predicate Present(c: Config, logs: map<string, LogFile>, r: Record) {
    exists n :: n in logs && r in Recs(c.env, logs[n].data)
  }

  /** The records read for a log are still in it, but for those that an append hid. */
  ghost predicate Current(c: Config, logs: map<string, LogFile>, snap: map<string, LogFile>, seen: map<string, LogFile>,
                          torn: set<Record>, n: string) {
    && n in snap
    && (n in logs && n in seen && seen[n].readable ==> Recs(c.env, seen[n].data) <= Recs(c.env, logs[n].data) + torn)
  }

  ghost predicate PassInv(c: Config, s: State) {
    match s.pass
    case Idle => true
    case Gathering(now, snap, seen) =>
      && now <= s.clock && seen.Keys <= snap.Keys && snap.Keys <= s.logs.Keys
      && (forall n :: n in snap ==> Current(c, s.logs, snap, seen, s.torn, n))
      && (forall n, r :: n in seen && r in Recs(c.env, seen[n].data) ==> r in s.ever)
      && (c.own in seen && seen[c.own].readable ==> c.own in s.logs && seen[c.own].data == s.logs[c.own].data)
    case Pruning(now, snap, seen, keepSources, todo) =>
      && now <= s.clock && seen.Keys == snap.Keys && todo <= snap.Keys
      && (forall n :: n in todo && n != c.own ==> n in s.logs && Current(c, s.logs, snap, seen, s.torn, n))
      && (forall n :: n in seen && !seen[n].readable ==> n in keepSources)
      && (forall n, r :: n in seen && r in Recs(c.env, seen[n].data) ==> r in s.ever)
      && (forall n, r :: n in seen && r in Recs(c.env, seen[n].data) && seen[n].readable && Matters(s, r) ==>
            Sheltered(c, s.logs, keepSources, r))
  }

  /** The record is in a log that the pass does not delete. */
  ghost predicate Sheltered(c: Config, logs: map<string, LogFile>, keepSources: set<string>, r: Record) {
    exists n :: n in logs && (!c.Eligible(n) || n in keepSources) && r in Recs(c.env, logs[n].data)
  }

  ghost predicate Inv(c: Config, s: State) {
    && Ties(s.ever)
    && (forall n, r :: n in s.logs && r in Recs(c.env, s.logs[n].data) ==> r in s.ever)
    && (forall r :: Matters(s, r) ==> Present(c, s.logs, r))
    && PassInv(c, s)
  }

  lemma {:induction false} RecsOfScan(env: Env, log: string, data: bytes)
    ensures forall x :: x in ScanLog(env, log, data) ==> x.log == log && x.rec in Recs(env, data)
    ensures forall r :: r in Recs(env, data) ==> exists x :: x in ScanLog(env, log, data) && x.rec == r
  {
    hide Walk;
    var w, items := Walk(env, data, 0), ScanLog(env, log, data);
    forall x | x in items
      ensures x.log == log && x.rec in Recs(env, data)
    {
      var i :| 0 <= i < |items| && items[i] == x;
      assert w[i] in w;
    }
    forall r | r in Recs(env, data)
      ensures exists x :: x in items && x.rec == r
    {
      var sp :| sp in w && sp.rec == r;
      var i :| 0 <= i < |w| && w[i] == sp;
      assert items[i] in items;
    }
  }

  lemma {:induction false} InitHolds(c: Config, s: State)
    requires Init(c, s) && Ties(s.ever)
    ensures Inv(c, s)
  {
    hide Recs;
    forall r | Matters(s, r)
      ensures Present(c, s.logs, r)
    {
      var n :| n in s.logs && r in Recs(c.env, s.logs[n].data);
    }
  }

  /** What matters after a step that only adds records, moves the clock or drops, mattered before. */
  lemma {:induction false} MatteredBefore(s: State, s': State, r: Record)
    requires s.ever <= s'.ever && s.dropped <= s'.dropped && s.torn <= s'.torn && s.clock <= s'.clock
    requires Matters(s', r) && r in s.ever
    ensures Matters(s, r)
  {}

  lemma {:induction false} AppendKeepsPresent(c: Config, s: State, s': State, n: string, extra: bytes, mtime: int,
                                              r: Record)
    requires Inv(c, s) && AppendTo(c, s, s', n, extra, mtime) && Matters(s', r)
    ensures Present(c, s'.logs, r)
  {
    hide Recs, PassInv;
    var old_ := DataOf(s, n);
    if r in Recs(c.env, old_ + extra) {
      assert n in s'.logs && s'.logs[n].data == old_ + extra;
    } else {
      MatteredBefore(s, s', r);
      var n0 :| n0 in s.logs && r in Recs(c.env, s.logs[n0].data);
      assert n0 in s'.logs && n0 != n;
    }
  }

  lemma {:induction false} AppendKeepsCurrent(c: Config, s: State, s': State, n: string, extra: bytes, mtime: int,
                                              k: string)
    requires AppendTo(c, s, s', n, extra, mtime) && !s.pass.Idle?
    requires Current(c, s.logs, s.pass.snap, s.pass.seen, s.torn, k) && k in s.logs
    ensures Current(c, s'.logs, s.pass.snap, s.pass.seen, s'.torn, k)
  {
    hide Recs;
  }

  lemma {:induction false} AppendKeepsSheltered(c: Config, s: State, s': State, n: string, extra: bytes, mtime: int,
                                                keepSources: set<string>, r: Record)
    requires AppendTo(c, s, s', n, extra, mtime) && Sheltered(c, s.logs, keepSources, r) && r !in s'.torn
    ensures Sheltered(c, s'.logs, keepSources, r)
  {
    hide Recs;
    var k :| k in s.logs && (!c.Eligible(k) || k in keepSources) && r in Recs(c.env, s.logs[k].data);
    assert k in s'.logs;
  }

  lemma {:induction false} AppendKeepsPass(c: Config, s: State, s': State, n: string, extra: bytes, mtime: int)
    requires PassInv(c, s) && AppendTo(c, s, s', n, extra, mtime)
    requires n == c.own ==> s.pass.Idle?
    ensures PassInv(c, s')
  {
    hide Recs, Current, Sheltered;
    if !s.pass.Idle? {
      forall k | Current(c, s.logs, s.pass.snap, s.pass.seen, s.torn, k) && k in s.logs
        ensures Current(c, s'.logs, s.pass.snap, s.pass.seen, s'.torn, k)
      { AppendKeepsCurrent(c, s, s', n, extra, mtime, k); }
    }
    if s.pass.Pruning? {
      forall k, r | k in s.pass.seen && r in Recs(c.env, s.pass.seen[k].data) && s.pass.seen[k].readable
        && Matters(s', r)
        ensures Sheltered(c, s'.logs, s'.pass.keepSources, r)
      {
        MatteredBefore(s, s', r);
        AppendKeepsSheltered(c, s, s', n, extra, mtime, s.pass.keepSources, r);
      }
    }
  }

  lemma {:induction false} AppendKeeps(c: Config, s: State, s': State, n: string, extra: bytes, mtime: int)
    requires Inv(c, s) && AppendTo(c, s, s', n, extra, mtime) && Ties(s'.ever)
    requires n == c.own ==> s.pass.Idle?
    ensures Inv(c, s')
  {
    hide Recs, PassInv, Matters, Present;
    forall r | Matters(s', r)
      ensures Present(c, s'.logs, r)
    { AppendKeepsPresent(c, s, s', n, extra, mtime, r); }
    AppendKeepsPass(c, s, s', n, extra, mtime);
  }

  lemma {:induction false} QuietKeeps(c: Config, s: State, s': State)
    requires Inv(c, s)
    requires Tick(s, s') || SpillArrives(s, s') || (exists now :: Begin(s, s', now)) || Abort(c, s, s') || Finish(s, s')
    ensures Inv(c, s')
  {
    hide Recs;
    forall r | Matters(s', r)
      ensures Matters(s, r) && Present(c, s'.logs, r)
    {
      MatteredBefore(s, s', r);
      assert Present(c, s.logs, r);
    }
  }

  lemma {:induction false} StatKeeps(c: Config, s: State, s': State, n: string)
    requires Inv(c, s) && StatLog(s, s', n)
    ensures Inv(c, s')
  {
    hide Recs;
    forall r | Matters(s', r)
      ensures Present(c, s'.logs, r)
    { assert Matters(s, r); }
    forall k | k in s'.pass.snap
      ensures Current(c, s'.logs, s'.pass.snap, s'.pass.seen, s'.torn, k)
    { assert k != n ==> Current(c, s.logs, s.pass.snap, s.pass.seen, s.torn, k); }
  }

  lemma {:induction false} ReadKeeps(c: Config, s: State, s': State, n: string, ok: bool)
    requires Inv(c, s) && ReadLog(s, s', n, ok)
    ensures Inv(c, s')
  {
    hide Recs, Current;
    NothingInEmpty(c.env);
    forall r | Matters(s', r)
      ensures Present(c, s'.logs, r)
    { assert Matters(s, r); }
    forall k | k in s'.pass.snap
      ensures Current(c, s'.logs, s'.pass.snap, s'.pass.seen, s'.torn, k)
    { ReadKeepsCurrent(c, s, s', n, ok, k); }
  }

  lemma {:induction false} ReadKeepsCurrent(c: Config, s: State, s': State, n: string, ok: bool, k: string)
    requires ReadLog(s, s', n, ok) && Current(c, s.logs, s.pass.snap, s.pass.seen, s.torn, k)
    ensures Current(c, s'.logs, s'.pass.snap, s'.pass.seen, s'.torn, k)
  {
    hide Recs;
  }

  lemma {:induction false} NothingInEmpty(env: Env)
    ensures Recs(env, []) == {}
  {}

  /** A record that matters and that the pass has read ends up in a log the pass does not delete. */
  lemma {:induction false} RewriteShelters(c: Config, s: State, s': State, mtime: int, n: string, r: Record)
    requires Lawful(c.env) && Inv(c, s) && Rewrite(c, s, s', mtime)
    requires n in s.pass.seen && s.pass.seen[n].readable && r in Recs(c.env, s.pass.seen[n].data) && Matters(s', r)
    ensures Sheltered(c, s'.logs, s'.pass.keepSources, r)
  {
    hide Lawful, Recs, ScanLog, AllItems, LiveWinners, Ours, Resolved, FrameAll, AllFaithful, Winner;
    var seen, now := s.pass.seen, s.pass.now;
    var fold := FoldOf(c, seen);
    var items := AllItems(c.env, seen);
    PhysicalMembers(c.env, seen);
    RecsOfScan(c.env, n, seen[n].data);
    var x :| x in ScanLog(c.env, n, seen[n].data) && x.rec == r;
    assert x in items;
    WinnerIsNewest(items, r.key);
    WinnerHasKey(items, r.key);
    var m := Winner(items, r.key).value;
    RecsOfScan(c.env, m.log, seen[m.log].data);
    assert m.rec in s.ever;
    assert m.rec == r;
    LiveWinnersFacts(items, now);
    DeadStaysDead(r, now, s.clock);
    var keep := KeepOf(c.env, seen, now);
    assert m in keep;
    OursMembers(keep, c.own, fold, s.pool);
    if (m.log == c.own || m.log in fold) && Resolvable(m, s.pool) {
      var consolidated := Resolved(OursIn(c, seen, now), s.pool);
      assert m in OursIn(c, seen, now);
      ConsolidatedAreFaithful(c.env, seen, s.pool, c.own, fold, now);
      RewrittenHold(c.env, c.own, consolidated);
      RecsOfScan(c.env, c.own, FrameAll(c.env, RecordsIn(consolidated)));
      assert c.own in s'.logs && s'.logs[c.own].data == FrameAll(c.env, RecordsIn(consolidated));
    } else {
      if m.log == c.own || m.log in fold {
        assert m in OursIn(c, seen, now) && m.log in AbsentSources(OursIn(c, seen, now), s.pool);
        assert c.Waits(m.log);
      }
      assert Current(c, s.logs, s.pass.snap, seen, s.torn, m.log);
      assert m.log in s'.logs && s'.logs[m.log] == s.logs[m.log];
    }
  }

  lemma {:induction false} SeenIsEver(c: Config, s: State, n: string, r: Record)
    requires Inv(c, s) && s.pass.Gathering? && n in s.pass.seen && r in Recs(c.env, s.pass.seen[n].data)
    ensures r in s.ever
  {
    hide Recs, Current;
  }

  /** What a pass answers for, it has read. */
  lemma {:induction false} OursWereRead(c: Config, seen: map<string, LogFile>, pool: map<string, PoolFile>, now: int,
                                        x: Located)
    requires x in Resolved(OursIn(c, seen, now), pool)
    ensures x.log in seen && x.rec in Recs(c.env, seen[x.log].data)
  {
    hide Recs, ScanLog, AllItems, LiveWinners, Ours, Resolved, Winner;
    var items := AllItems(c.env, seen);
    OursMembers(KeepOf(c.env, seen, now), c.own, FoldOf(c, seen), pool);
    LiveWinnersFacts(items, now);
    WinnerHasKey(items, x.rec.key);
    PhysicalMembers(c.env, seen);
    RecsOfScan(c.env, x.log, seen[x.log].data);
  }

  /** What a pass writes to its log, it has read. */
  lemma {:induction false} ConsolidatedWereRead(c: Config, seen: map<string, LogFile>, pool: map<string, PoolFile>,
                                                now: int, consolidated: seq<Located>, r: Record)
    requires consolidated == Resolved(OursIn(c, seen, now), pool)
    requires AllFaithful(c.env, RecordsIn(consolidated)) && r in Recs(c.env, FrameAll(c.env, RecordsIn(consolidated)))
    ensures exists n :: n in seen && r in Recs(c.env, seen[n].data)
  {
    hide *;
    RewrittenComeFrom(c.env, c.own, consolidated);
    RecsOfScan(c.env, c.own, FrameAll(c.env, RecordsIn(consolidated)));
    var y :| y in ScanLog(c.env, c.own, FrameAll(c.env, RecordsIn(consolidated))) && y.rec == r;
    var x :| x in consolidated && x.rec == r;
    OursWereRead(c, seen, pool, now, x);
  }

  /** The rewritten log holds only records that were read. */
  lemma {:induction false} RewriteAddsNothing(c: Config, s: State, s': State, mtime: int, r: Record)
    requires Lawful(c.env) && Inv(c, s) && Rewrite(c, s, s', mtime)
    requires c.own in s'.logs && r in Recs(c.env, s'.logs[c.own].data)
    ensures r in s.ever
  {
    hide Lawful, Recs, KeepOf, Ours, Resolved, FrameAll, AllFaithful, Inv;
    var consolidated := Resolved(OursIn(c, s.pass.seen, s.pass.now), s.pool);
    ConsolidatedAreFaithful(c.env, s.pass.seen, s.pool, c.own, FoldOf(c, s.pass.seen), s.pass.now);
    ConsolidatedWereRead(c, s.pass.seen, s.pool, s.pass.now, consolidated, r);
    var n :| n in s.pass.seen && r in Recs(c.env, s.pass.seen[n].data);
    SeenIsEver(c, s, n, r);
  }

  /** What `Rewrite` does, apart from what it writes. */
  lemma {:induction false} RewriteFrame(c: Config, s: State, s': State, mtime: int)
    requires Lawful(c.env) && Rewrite(c, s, s', mtime)
    ensures s.pass.Gathering? && s'.pass.Pruning?
    ensures s'.clock == s.clock && s'.ever == s.ever && s'.made == s.made
    ensures s.dropped <= s'.dropped && s'.torn == s.torn
    ensures s'.pass.now == s.pass.now && s'.pass.snap == s.pass.snap && s'.pass.seen == s.pass.seen
    ensures s.pass.snap.Keys == s.pass.seen.Keys == s'.pass.todo
    ensures Unread(s.pass.seen) <= s'.pass.keepSources
    ensures forall n :: n != c.own ==> (n in s'.logs <==> n in s.logs) && (n in s.logs ==> s'.logs[n] == s.logs[n])
    ensures c.own in s.logs ==> c.own in s.pass.seen && s.pass.seen[c.own].readable
  {
    hide Lawful, FrameAll, AllFaithful, OursIn, Resolved, AbsentSources;
  }

  lemma {:induction false} RewriteKeepsPresent(c: Config, s: State, s': State, mtime: int, r: Record)
    requires Lawful(c.env) && Inv(c, s) && Rewrite(c, s, s', mtime) && Matters(s', r)
    ensures Present(c, s'.logs, r)
  {
    hide Lawful, Recs, Rewrite, Current;
    RewriteFrame(c, s, s', mtime);
    MatteredBefore(s, s', r);
    assert Present(c, s.logs, r);
    var n :| n in s.logs && r in Recs(c.env, s.logs[n].data);
    if n == c.own {
      RewriteShelters(c, s, s', mtime, n, r);
      assert Sheltered(c, s'.logs, s'.pass.keepSources, r);
    } else {
      assert n in s'.logs;
    }
  }

  lemma {:induction false} RewriteStartsPruning(c: Config, s: State, s': State, mtime: int)
    requires Lawful(c.env) && Inv(c, s) && Rewrite(c, s, s', mtime)
    ensures PassInv(c, s')
  {
    hide Lawful, Recs, Rewrite, Sheltered;
    RewriteFrame(c, s, s', mtime);
    forall n, r | n in s'.pass.seen && r in Recs(c.env, s'.pass.seen[n].data) && s'.pass.seen[n].readable
      && Matters(s', r)
      ensures Sheltered(c, s'.logs, s'.pass.keepSources, r)
    {
      RewriteShelters(c, s, s', mtime, n, r);
    }
    forall n | n in s'.pass.todo && n != c.own
      ensures n in s'.logs && Current(c, s'.logs, s'.pass.snap, s'.pass.seen, s'.torn, n)
    {
      assert Current(c, s.logs, s.pass.snap, s.pass.seen, s.torn, n);
    }
    assert forall n :: n in s.pass.seen && !s.pass.seen[n].readable ==> n in Unread(s.pass.seen);
  }

  lemma {:induction false} RewriteKeeps(c: Config, s: State, s': State, mtime: int)
    requires Lawful(c.env) && Inv(c, s) && Rewrite(c, s, s', mtime)
    ensures Inv(c, s')
  {
    hide Lawful, Recs, Rewrite, PassInv, Matters, Present;
    RewriteFrame(c, s, s', mtime);
    forall r | Matters(s', r)
      ensures Present(c, s'.logs, r)
    { RewriteKeepsPresent(c, s, s', mtime, r); }
    forall n, r | n in s'.logs && r in Recs(c.env, s'.logs[n].data)
      ensures r in s'.ever
    {
      if n == c.own { RewriteAddsNothing(c, s, s', mtime, r); }
    }
    RewriteStartsPruning(c, s, s', mtime);
  }

  lemma {:induction false} PruneKeeps(c: Config, s: State, s': State, n: string)
    requires Inv(c, s) && BytesInv(c, s) && PruneOne(c, s, s', n)
    ensures Inv(c, s')
  {
    hide Recs;
    forall r | Matters(s', r)
      ensures Present(c, s'.logs, r)
    {
      assert Matters(s, r);
      assert Present(c, s.logs, r);
      var n0 :| n0 in s.logs && r in Recs(c.env, s.logs[n0].data);
      if n0 !in s'.logs {
        PrunedWasRead(c, s, s', n);
        assert Sheltered(c, s.logs, s.pass.keepSources, r);
        var n1 :| n1 in s.logs && (!c.Eligible(n1) || n1 in s.pass.keepSources) && r in Recs(c.env, s.logs[n1].data);
        assert n1 in s'.logs;
      }
    }
    forall k, r | k in s.pass.seen && r in Recs(c.env, s.pass.seen[k].data) && s.pass.seen[k].readable && Matters(s', r)
      ensures Sheltered(c, s'.logs, s'.pass.keepSources, r)
    {
      assert Matters(s, r) && Sheltered(c, s.logs, s.pass.keepSources, r);
      var n1 :| n1 in s.logs && (!c.Eligible(n1) || n1 in s.pass.keepSources) && r in Recs(c.env, s.logs[n1].data);
      assert n1 in s'.logs;
    }
    forall k | k in s'.pass.todo && k != c.own
      ensures k in s'.logs && Current(c, s'.logs, s'.pass.snap, s'.pass.seen, s'.torn, k)
    {
      assert Current(c, s.logs, s.pass.snap, s.pass.seen, s.torn, k);
    }
  }

  lemma {:induction false} StepKeeps(c: Config, s: State, s': State, step: Step)
    requires Lawful(c.env) && Inv(c, s) && BytesInv(c, s) && NextBy(c, s, s', step) && Ties(s'.ever)
    ensures Inv(c, s')
  {
    hide Inv, BytesInv, Lawful, AppendTo, Rewrite, PruneOne, Ties;
    match step
    case TickStep => QuietKeeps(c, s, s');
    case SpillStep => QuietKeeps(c, s, s');
    case PeerStep(n, extra, mtime) => AppendKeeps(c, s, s', n, extra, mtime);
    case OwnStep(extra, mtime) => AppendKeeps(c, s, s', c.own, extra, mtime);
    case BeginStep(_) => QuietKeeps(c, s, s');
    case StatStep(n) => StatKeeps(c, s, s', n);
    case ReadStep(n, ok) => ReadKeeps(c, s, s', n, ok);
    case AbortStep => QuietKeeps(c, s, s');
    case RewriteStep(mtime) => RewriteKeeps(c, s, s', mtime);
    case PruneStep(n) => PruneKeeps(c, s, s', n);
    case FinishStep => QuietKeeps(c, s, s');
  }

  ghost predicate IsRun(c: Config, run: seq<State>, steps: seq<Step>)
    requires Lawful(c.env)
  {
    && |run| == |steps| + 1 && Init(c, run[0])
    && forall i :: 0 <= i < |steps| ==> NextBy(c, run[i], run[i + 1], steps[i])
  }

  lemma {:induction false} RunKeepsBytes(c: Config, run: seq<State>, steps: seq<Step>, i: nat)
    requires Lawful(c.env) && IsRun(c, run, steps) && i < |run|
    ensures BytesInv(c, run[i])
    decreases i
  {
    hide NextBy, Lawful;
    if i > 0 {
      hide BytesInv;
      RunKeepsBytes(c, run, steps, i - 1);
      StepKeepsBytes(c, run[i - 1], run[i], steps[i - 1]);
    }
  }

  /** Logs other than ours go only with exactly the bytes the pass had read. */
  ghost predicate OnlyReadLogsGo(c: Config, s: State, s': State) {
    forall n :: n in s.logs && n !in s'.logs && n != c.own ==>
      s.pass.Pruning? && n in s.pass.seen && s.pass.seen[n].readable && s.pass.seen[n].data == s.logs[n].data
  }

  /** In every run, whatever is appended and however torn: a log that is neither ours nor foldable is byte
      for byte what its own writers made it, and a log is deleted only with exactly the bytes read. */
  lemma {:induction false} BytesAreSafe(c: Config, run: seq<State>, steps: seq<Step>, i: nat)
    requires Lawful(c.env) && IsRun(c, run, steps) && i < |run|
    ensures forall n :: n != c.own && !c.Eligible(n) ==>
              && (n in run[i].logs <==> n in run[i].made)
              && (n in run[i].logs ==> run[i].logs[n] == run[i].made[n])
    ensures i < |steps| ==> OnlyReadLogsGo(c, run[i], run[i + 1])
  {
    hide NextBy, Lawful;
    RunKeepsBytes(c, run, steps, i);
    if i < |steps| { OnlyPruneDeletes(c, run[i], run[i + 1], steps[i]); }
  }

  lemma {:induction false} OnlyPruneDeletes(c: Config, s: State, s': State, step: Step)
    requires Lawful(c.env) && BytesInv(c, s) && NextBy(c, s, s', step)
    ensures OnlyReadLogsGo(c, s, s')
  {
    hide Lawful, BytesInv, Rewrite, Recs;
    match step
    case RewriteStep(mtime) => RewriteFrame(c, s, s', mtime);
    case PruneStep(k) => if k in s.logs && k !in s'.logs { PrunedWasRead(c, s, s', k); }
    case _ =>
  }

  /** Consolidation under concurrent appends, over every run whose records of one key have different times: the
      newest record ever written for a key, when live, not dropped for a missing spill, and not hidden by an
      append behind a torn tail, is in some log at every moment, and it is the latest-wins record of all logs.
      A record that waits for its spill in a conflict copy is never dropped. */
  lemma {:induction false} RunIsSafe(c: Config, run: seq<State>, steps: seq<Step>, i: nat)
    requires Lawful(c.env) && IsRun(c, run, steps) && i < |run|
    requires forall k :: 0 <= k < |run| ==> Ties(run[k].ever)
    ensures Inv(c, run[i])
    ensures forall r :: Matters(run[i], r) ==>
              var w := Winner(PhysicalItems(c.env, run[i].logs), r.key);
              w.Some? && w.value.rec == r
    decreases i
  {
    hide Lawful, NextBy, Recs, PhysicalItems, Winner, BytesInv, Ties;
    if i == 0 {
      InitHolds(c, run[0]);
    } else {
      RunIsSafe(c, run, steps, i - 1);
      RunKeepsBytes(c, run, steps, i - 1);
      StepKeeps(c, run[i - 1], run[i], steps[i - 1]);
    }
    forall r | Matters(run[i], r)
      ensures var w := Winner(PhysicalItems(c.env, run[i].logs), r.key);
              w.Some? && w.value.rec == r
    {
      PresentWins(c, run[i], r);
    }
  }

  lemma {:induction false} PresentWins(c: Config, s: State, r: Record)
    requires Inv(c, s) && Matters(s, r)
    ensures var w := Winner(PhysicalItems(c.env, s.logs), r.key);
            w.Some? && w.value.rec == r
  {
    hide Recs, ScanLog, AllItems, Winner, PassInv;
    var items := PhysicalItems(c.env, s.logs);
    PhysicalMembers(c.env, s.logs);
    var n :| n in s.logs && r in Recs(c.env, s.logs[n].data);
    RecsOfScan(c.env, n, s.logs[n].data);
    var x :| x in ScanLog(c.env, n, s.logs[n].data) && x.rec == r;
    assert x in items;
    WinnerIsNewest(items, r.key);
    WinnerHasKey(items, r.key);
    var w := Winner(items, r.key).value;
    RecsOfScan(c.env, w.log, s.logs[w.log].data);
    assert w.rec in s.ever;
  }

  /** An append to a log without a torn tail hides nothing that was read there. */
  lemma {:induction false} TearFreeLosesNone(env: Env, data: bytes, extra: bytes)
    requires TearAt(env, data).None?
    ensures Unsettled(env, data, extra) == {}
  {
    hide Walk, Intact;
    AppendKeepsIntactRecords(env, data, extra);
  }

  /** The log that a step appends to, if it is an append, has no torn tail. */
  ghost predicate TearFree(c: Config, s: State, step: Step) {
    match step
    case PeerStep(n, _, _) => TearAt(c.env, DataOf(s, n)).None?
    case OwnStep(_, _) => TearAt(c.env, DataOf(s, c.own)).None?
    case _ => true
  }

  /** So a run whose appends go to logs without torn tails hides no record at all. */
  lemma {:induction false} TearFreeRunLosesNone(c: Config, run: seq<State>, steps: seq<Step>, i: nat)
    requires Lawful(c.env) && IsRun(c, run, steps) && i < |run|
    requires forall k :: 0 <= k < |steps| ==> TearFree(c, run[k], steps[k])
    ensures run[i].torn == {}
    decreases i
  {
    hide Lawful, NextBy, TearFree;
    if i > 0 {
      TearFreeRunLosesNone(c, run, steps, i - 1);
      TearFreeStepLosesNone(c, run[i - 1], run[i], steps[i - 1]);
    }
  }

  lemma {:induction false} TearFreeStepLosesNone(c: Config, s: State, s': State, step: Step)
    requires Lawful(c.env) && NextBy(c, s, s', step) && TearFree(c, s, step)
    ensures s'.torn == s.torn
  {
    hide Lawful, Rewrite, Recs, Unsettled, TearAt;
    match step
    case PeerStep(n, extra, _) => TearFreeLosesNone(c.env, DataOf(s, n), extra);
    case OwnStep(extra, _) => TearFreeLosesNone(c.env, DataOf(s, c.own), extra);
    case RewriteStep(mtime) => RewriteFrame(c, s, s', mtime);
    case _ =>
  }
}
