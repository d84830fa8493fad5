/**
 The shared spill pool over whole runs of any number of writers.

 A `set` spills before it takes the lock and appends later; a pass reads the logs one by one, rewrites
 its own, and sweeps the pool file by file.  All these steps interleave.  Scope: no deletes or expiry,
 prune-free passes, no size limit, distinct store times for distinct writes of a key, and every append
 within the grace window of its spill's last touch.
 */
module PoolGc {
  import opened Bytes
  import opened Options
  import opened Pickle
  import opened Store
  import opened Consolidation
  import opened LogCaches
  import LoneWriter

  /** One `set` of one writer: the record it appends and, when spilled, the bytes of its value. */
  datatype Write = Write(writer: string, rec: Record, blob: bytes)

  datatype Pass =
    | Reading(now: int, snap: set<string>, read: map<string, set<Write>>, unread: set<string>)
    | Sweeping(now: int, kept: set<string>, unread: set<string>)

  /** `ever` holds every write that was appended, `at` when it was, `touched` when each pool path was
      last written or touched, and `blobs` every content ever spilled. */
  datatype State = State(
    clock: int,
    logs: map<string, set<Write>>,
    pool: map<string, PoolFile>,
    inflight: set<Write>,
    passes: map<string, Pass>,
    ever: set<Write>,
    at: map<Write, int>,
    touched: map<string, int>,
    blobs: set<bytes>)

  datatype Config = Config(env: Env, prefix: string)

  function Rel(c: Config, w: Write): string { PoolPath(c.env, c.prefix, w.blob) }

  /** A record that `set` makes without an expiry. */
  predicate Plain(c: Config, w: Write) {
    !w.rec.deleted && w.rec.expireTime.None? && (w.rec.Spilled() ==> w.rec.spill == Some(Rel(c, w)))
  }

  /** The latest write of each key. */
  function Winners(ws: set<Write>): set<Write> {
    set w | w in ws && forall q :: q in ws && q.rec.key == w.rec.key ==> q.rec.Time() <= w.rec.Time()
  }

  ghost predicate NoTies(ws: set<Write>) {
    forall a, b :: a in ws && b in ws && a.rec.key == b.rec.key && a.rec.Time() == b.rec.Time() ==> a == b
  }

  ghost predicate NoCollisions(c: Config, blobs: set<bytes>) {
    forall a, b :: a in blobs && b in blobs && c.env.sha(a) == c.env.sha(b) ==> a == b
  }

  // ------------------------------------------------------------------ steps

  ghost predicate Tick(s: State, s': State) {
    s.clock <= s'.clock && s' == s.(clock := s'.clock)
  }

  /** `_spill_write` of a `set` in flight, or nothing to spill. */
  ghost predicate Start(c: Config, s: State, s': State, w: Write) {
    && Plain(c, w) && w !in s.ever
    && if w.rec.Spilled() then
         && NoCollisions(c, s.blobs + {w.blob})
         && s' == s.(pool := Spilled(c.env, c.prefix, s.pool, w.blob, s.clock), inflight := s.inflight + {w},
                     touched := s.touched[Rel(c, w) := s.clock], blobs := s.blobs + {w.blob})
       else s' == s.(inflight := s.inflight + {w})
  }

  function LogOf(s: State, writer: string): set<Write> {
    if writer in s.logs then s.logs[writer] else {}
  }

  /** `_append` under the writer's lock, within the grace window of the spill's last touch. */
  ghost predicate Append(c: Config, s: State, s': State, w: Write) {
    && w in s.inflight && w.writer !in s.passes && w !in s.ever
    && (w.rec.Spilled() ==> Rel(c, w) in s.touched && s.clock - s.touched[Rel(c, w)] < GRACE)
    && NoTies(s.ever + {w})
    && s' == s.(logs := s.logs[w.writer := LogOf(s, w.writer) + {w}], inflight := s.inflight - {w},
                ever := s.ever + {w}, at := s.at[w := s.clock])
  }

  ghost predicate CompactLog(s: State, s': State, writer: string) {
    && writer in s.logs && writer !in s.passes
    && s' == s.(logs := s.logs[writer := Winners(s.logs[writer])])
  }

  /** A pass reads the clock before it takes its lock, and lists the logs under it. */
  ghost predicate Begin(s: State, s': State, writer: string, now: int) {
    && writer !in s.passes && now <= s.clock
    && s' == s.(passes := s.passes[writer := Reading(now, s.logs.Keys, map[], {})])
  }

  ghost predicate ReadLog(s: State, s': State, writer: string, log: string, ok: bool) {
    && writer in s.passes && s.passes[writer].Reading?
    && var p := s.passes[writer];
       && log in p.snap && log !in p.read && log !in p.unread && (ok ==> log in s.logs)
       && s' == s.(passes := s.passes[writer :=
                     if ok then Reading(p.now, p.snap, p.read[log := s.logs[log]], p.unread)
                     else Reading(p.now, p.snap, p.read, p.unread + {log})])
  }

  function AllRead(read: map<string, set<Write>>): set<Write> {
    set l, w | l in read && w in read[l] :: w
  }

  function Consolidates(s: State, writer: string, winners: set<Write>): set<Write> {
    set w | w in winners && w.writer == writer && (w.rec.Spilled() ==> w.rec.spill.value in s.pool)
  }

  /** The paths that the pass holds to be referenced: by what it rewrote, and by what stays with peers. */
  function Kept(consolidated: set<Write>, winners: set<Write>, writer: string): set<string> {
    (set w | w in consolidated && w.rec.Spilled() :: w.rec.spill.value)
    + (set w | w in winners && w.writer != writer && w.rec.Spilled() :: w.rec.spill.value)
  }

  ghost predicate Rewrite(s: State, s': State, writer: string) {
    && writer in s.passes && s.passes[writer].Reading?
    && var p := s.passes[writer];
       && p.snap == p.read.Keys + p.unread && (writer in s.logs ==> writer in p.read)
       && var winners := Winners(AllRead(p.read));
          var consolidated := Consolidates(s, writer, winners);
          s' == s.(logs := if consolidated == {} then s.logs - {writer} else s.logs[writer := consolidated],
                   passes := s.passes[writer := Sweeping(p.now, Kept(consolidated, winners, writer), p.unread)])
  }

  /** The re-check of one pool file and its deletion, one step. */
  ghost predicate SweepFile(s: State, s': State, writer: string, rel: string) {
    && writer in s.passes && s.passes[writer].Sweeping?
    && var p := s.passes[writer];
       && p.unread == {} && rel in s.pool && rel !in p.kept && p.now - s.pool[rel].touched >= GRACE
       && s' == s.(pool := s.pool - {rel})
  }

  /** A pass ends after its sweep, or gives up before its rewrite. */
  ghost predicate End(s: State, s': State, writer: string) {
    writer in s.passes && s' == s.(passes := s.passes - {writer})
  }

  datatype Step =
    | TickStep | StartStep(w: Write) | AppendStep(w: Write) | CompactStep(writer: string)
    | BeginStep(writer: string, now: int) | ReadStep(writer: string, log: string, ok: bool)
      | RewriteStep(writer: string)
    | SweepStep(writer: string, rel: string) | EndStep(writer: string)

  ghost predicate NextBy(c: Config, s: State, s': State, step: Step) {
    match step
    case TickStep => Tick(s, s')
    case StartStep(w) => Start(c, s, s', w)
    case AppendStep(w) => Append(c, s, s', w)
    case CompactStep(writer) => CompactLog(s, s', writer)
    case BeginStep(writer, now) => Begin(s, s', writer, now)
    case ReadStep(writer, log, ok) => ReadLog(s, s', writer, log, ok)
    case RewriteStep(writer) => Rewrite(s, s', writer)
    case SweepStep(writer, rel) => SweepFile(s, s', writer, rel)
    case EndStep(writer) => End(s, s', writer)
  }

  ghost predicate Init(s: State) {
    && s.logs == map[] && s.pool == map[] && s.inflight == {} && s.passes == map[]
    && s.ever == {} && s.at == map[] && s.touched == map[] && s.blobs == {}
  }

  // ------------------------------------------------------------------ the invariant

  /** A write that `set` started: its content is known, and its path was touched. */
  ghost predicate Known(c: Config, s: State, w: Write) {
    Plain(c, w) && (w.rec.Spilled() ==> w.blob in s.blobs && Rel(c, w) in s.touched)
  }

  ghost predicate Fresh(s: State, rel: string) {
    rel in s.touched && s.clock - s.touched[rel] < GRACE
  }

  ghost predicate PoolInv(c: Config, s: State) {
    && NoCollisions(c, s.blobs)
    && (forall rel :: rel in s.pool ==>
          && s.pool[rel].data in s.blobs && rel == PoolPath(c.env, c.prefix, s.pool[rel].data)
          && rel in s.touched && s.pool[rel].touched == s.touched[rel])
    && (forall rel :: Fresh(s, rel) ==> rel in s.pool)
  }

  ghost predicate WriteInv(c: Config, s: State) {
    && NoTies(s.ever) && s.at.Keys == s.ever
    && (forall w :: w in s.inflight ==> Known(c, s, w) && w !in s.ever)
    && (forall w :: w in s.ever ==> Known(c, s, w) && s.at[w] <= s.clock)
    && (forall w :: w in s.ever && w.rec.Spilled() ==> s.at[w] - s.touched[Rel(c, w)] < GRACE)
    && (forall l, w :: l in s.logs && w in s.logs[l] ==> w in s.ever && w.writer == l)
  }

  /** The latest write of a key is in its writer's log, and its pool file is there. */
  ghost predicate Safe(c: Config, s: State, w: Write) {
    && w.writer in s.logs && w in s.logs[w.writer]
    && (w.rec.Spilled() ==> Rel(c, w) in s.pool)
  }

  /** The write was appended since `now`. */
  ghost predicate Since(at: map<Write, int>, w: Write, now: int) {
    w in at && at[w] >= now
  }

  ghost predicate PassInv(c: Config, s: State, writer: string, p: Pass) {
    && p.now <= s.clock
    && match p
       case Reading(now, snap, read, unread) =>
         && read.Keys <= snap
         && (forall l, w :: l in read && w in read[l] ==> w in s.ever && w.writer == l)
         // What a log holds, the pass has read, or it was appended since the pass began.
         && (forall l, w :: l in s.logs && w in s.logs[l] && (l in read || l !in snap) ==>
               (l in read && w in read[l]) || Since(s.at, w, now))
         // Our own log waits for the pass.
         && (writer in read ==> writer in s.logs && s.logs[writer] == read[writer])
       case Sweeping(now, kept, unread) =>
         unread == {} ==>
           forall w :: w in Winners(s.ever) && w.rec.Spilled() ==> Rel(c, w) in kept || Since(s.at, w, now)
  }

  ghost predicate Inv(c: Config, s: State) {
    && PoolInv(c, s) && WriteInv(c, s)
    && (forall w :: w in Winners(s.ever) ==> Safe(c, s, w))
    && (forall p :: p in s.passes ==> PassInv(c, s, p, s.passes[p]))
  }

  // ------------------------------------------------------------------ every step keeps it

  /** A write that is the latest among more writes is the latest among fewer. */
  lemma {:induction false} WinsAmongFewer(few: set<Write>, many: set<Write>, w: Write)
    requires few <= many && w in Winners(many) && w in few
    ensures w in Winners(few)
  {}

  lemma {:induction false} TickKeeps(c: Config, s: State, s': State)
    requires Inv(c, s) && Tick(s, s')
    ensures Inv(c, s')
  {
    forall rel | Fresh(s', rel)
      ensures rel in s'.pool
    { assert Fresh(s, rel); }
    forall w | w in Winners(s'.ever)
      ensures Safe(c, s', w)
    { assert Safe(c, s, w); }
    forall p | p in s'.passes
      ensures PassInv(c, s', p, s'.passes[p])
    { assert PassInv(c, s, p, s.passes[p]); }
  }

  lemma {:induction false} StartKeepsPool(c: Config, s: State, s': State, w: Write)
    requires PoolInv(c, s) && Start(c, s, s', w) && w.rec.Spilled()
    ensures PoolInv(c, s')
    ensures s.pool.Keys <= s'.pool.Keys
  {
    hide PoolPath;
    var rel := Rel(c, w);
    if rel in s.pool {
      LoneWriter.PathInjective(c.env, c.prefix, w.blob, s.pool[rel].data);
      assert s.pool[rel].data == w.blob;
    }
    forall r | Fresh(s', r)
      ensures r in s'.pool
    { if r != rel { assert Fresh(s, r); } }
  }

  lemma {:induction false} StartKeeps(c: Config, s: State, s': State, w: Write)
    requires Inv(c, s) && Start(c, s, s', w)
    ensures Inv(c, s')
  {
    hide PoolPath, Spilled, PoolInv, NoTies;
    if w.rec.Spilled() { StartKeepsPool(c, s, s', w); } else { assert PoolInv(c, s') by { SamePool(c, s, s'); } }
    forall x | Known(c, s, x)
      ensures Known(c, s', x)
    {}
    forall x | x in s'.ever && x.rec.Spilled()
      ensures s'.at[x] - s'.touched[Rel(c, x)] < GRACE
    {
      assert Known(c, s, x);
    }
    forall x | x in Winners(s'.ever)
      ensures Safe(c, s', x)
    { assert Safe(c, s, x); }
    forall p | p in s'.passes
      ensures PassInv(c, s', p, s'.passes[p])
    { assert PassInv(c, s, p, s.passes[p]); }
  }

  lemma {:induction false} SamePool(c: Config, s: State, s': State)
    requires PoolInv(c, s)
    requires s'.pool == s.pool && s'.blobs == s.blobs && s'.touched == s.touched && s'.clock == s.clock
    ensures PoolInv(c, s')
  {
    forall rel | Fresh(s', rel)
      ensures rel in s'.pool
    { assert Fresh(s, rel); }
  }

  lemma {:induction false} AppendKeeps(c: Config, s: State, s': State, w: Write)
    requires Inv(c, s) && Append(c, s, s', w)
    ensures Inv(c, s')
  {
    hide PoolPath, PoolInv, NoTies, PassInv;
    assert PoolInv(c, s') by { SamePool(c, s, s'); }
    forall x | x in Winners(s'.ever)
      ensures Safe(c, s', x)
    {
      if x == w {
        if w.rec.Spilled() { FreshInPool(c, s, Rel(c, w)); }
      } else {
        WinsAmongFewer(s.ever, s'.ever, x);
        assert Safe(c, s, x);
      }
    }
    forall x | Known(c, s, x)
      ensures Known(c, s', x)
    {}
    forall p | p in s'.passes
      ensures PassInv(c, s', p, s'.passes[p])
    { AppendKeepsPass(c, s, s', w, p); }
  }

  lemma {:induction false} FreshInPool(c: Config, s: State, rel: string)
    requires PoolInv(c, s) && Fresh(s, rel)
    ensures rel in s.pool
  {}

  lemma {:induction false} SinceAppended(s: State, s': State, w: Write, x: Write, now: int)
    requires s'.at == s.at[w := s.clock] && now <= s.clock && (x == w || Since(s.at, x, now))
    ensures Since(s'.at, x, now)
  {}

  lemma {:induction false} AppendKeepsPass(c: Config, s: State, s': State, w: Write, p: string)
    requires WriteInv(c, s) && Append(c, s, s', w) && p in s.passes && PassInv(c, s, p, s.passes[p])
    ensures PassInv(c, s', p, s'.passes[p])
  {
    hide PoolPath, NoTies, Known, Since;
    var now := s.passes[p].now;
    assert Since(s'.at, w, now) by { SinceAppended(s, s', w, w, now); }
    forall x | Since(s.at, x, now)
      ensures Since(s'.at, x, now)
    { SinceAppended(s, s', w, x, now); }
    if s.passes[p].Sweeping? {
      forall x | x in Winners(s'.ever) && x.rec.Spilled() && s.passes[p].unread == {}
        ensures Rel(c, x) in s.passes[p].kept || Since(s'.at, x, s.passes[p].now)
      {
        if x != w { WinsAmongFewer(s.ever, s'.ever, x); }
      }
    }
  }

  lemma {:induction false} CompactKeeps(c: Config, s: State, s': State, writer: string)
    requires Inv(c, s) && CompactLog(s, s', writer)
    ensures Inv(c, s')
  {
    hide PoolPath, PoolInv, NoTies;
    assert PoolInv(c, s') by { SamePool(c, s, s'); }
    forall x | x in Winners(s'.ever)
      ensures Safe(c, s', x)
    {
      assert Safe(c, s, x);
      if x.writer == writer { WinsAmongFewer(s.logs[writer], s.ever, x); }
    }
    forall p | p in s'.passes
      ensures PassInv(c, s', p, s'.passes[p])
    { assert PassInv(c, s, p, s.passes[p]); }
  }

  lemma {:induction false} BeginKeeps(c: Config, s: State, s': State, writer: string, now: int)
    requires Inv(c, s) && Begin(s, s', writer, now)
    ensures Inv(c, s')
  {
    hide PoolPath, PoolInv, NoTies;
    assert PoolInv(c, s') by { SamePool(c, s, s'); }
    forall x | x in Winners(s'.ever)
      ensures Safe(c, s', x)
    { assert Safe(c, s, x); }
    forall p | p in s'.passes
      ensures PassInv(c, s', p, s'.passes[p])
    { if p != writer { assert PassInv(c, s, p, s.passes[p]); } }
  }

  lemma {:induction false} ReadKeeps(c: Config, s: State, s': State, writer: string, log: string, ok: bool)
    requires Inv(c, s) && ReadLog(s, s', writer, log, ok)
    ensures Inv(c, s')
  {
    hide PoolPath, PoolInv, WriteInv, NoTies;
    assert PoolInv(c, s') by { SamePool(c, s, s'); }
    SameWrites(c, s, s');
    forall x | x in Winners(s'.ever)
      ensures Safe(c, s', x)
    { assert Safe(c, s, x); }
    forall p | p in s'.passes
      ensures PassInv(c, s', p, s'.passes[p])
    { assert PassInv(c, s, p, s.passes[p]); }
  }

  /** A step that only moves a pass or the pool leaves the writes as they are. */
  lemma {:induction false} SameWrites(c: Config, s: State, s': State)
    requires WriteInv(c, s)
    requires s' == s.(passes := s'.passes, pool := s'.pool)
    ensures WriteInv(c, s')
  {
    assert forall w :: Known(c, s, w) ==> Known(c, s', w);
  }

  /** The latest write of a key is among what the pass read, or in an unreadable log, or newer than
      the pass. */
  lemma {:induction false} LatestWasRead(c: Config, s: State, writer: string, w: Write)
    requires Inv(c, s) && writer in s.passes && s.passes[writer].Reading? && w in Winners(s.ever)
    requires s.passes[writer].snap == s.passes[writer].read.Keys + s.passes[writer].unread
    ensures var p := s.passes[writer];
            w in Winners(AllRead(p.read)) || w.writer in p.unread || Since(s.at, w, p.now)
  {
    hide PoolPath, PoolInv, NoTies;
    var p := s.passes[writer];
    assert Safe(c, s, w) && PassInv(c, s, writer, p);
    if w.writer in p.read && w in p.read[w.writer] {
      assert w in AllRead(p.read);
      assert AllRead(p.read) <= s.ever;
      WinsAmongFewer(AllRead(p.read), s.ever, w);
    }
  }

  lemma {:induction false} RewriteKeeps(c: Config, s: State, s': State, writer: string)
    requires Inv(c, s) && Rewrite(s, s', writer)
    ensures Inv(c, s')
  {
    hide PoolPath, PoolInv, NoTies, PassInv;
    assert PoolInv(c, s') by { SamePool(c, s, s'); }
    forall x | x in Winners(s'.ever)
      ensures Safe(c, s', x)
    { RewriteKeepsSafe(c, s, s', writer, x); }
    forall l, w | l in s'.logs && w in s'.logs[l]
      ensures w in s'.ever && w.writer == l
    { if l == writer { RewriteAddsNothing(c, s, s', writer, w); } }
    forall p | p in s'.passes
      ensures PassInv(c, s', p, s'.passes[p])
    {
      if p == writer { RewriteMarks(c, s, s', writer); } else { RewriteKeepsPass(c, s, s', writer, p); }
    }
  }

  lemma {:induction false} RewriteKeepsSafe(c: Config, s: State, s': State, writer: string, w: Write)
    requires Inv(c, s) && Rewrite(s, s', writer) && w in Winners(s.ever)
    ensures Safe(c, s', w)
  {
    hide PoolPath, PoolInv, NoTies;
    assert Safe(c, s, w);
    if w.writer == writer {
      var p := s.passes[writer];
      assert PassInv(c, s, writer, p) && Known(c, s, w);
      assert w in p.read[writer] && w in AllRead(p.read) && AllRead(p.read) <= s.ever;
      WinsAmongFewer(AllRead(p.read), s.ever, w);
      assert w in Consolidates(s, writer, Winners(AllRead(p.read)));
    }
  }

  lemma {:induction false} RewriteAddsNothing(c: Config, s: State, s': State, writer: string, w: Write)
    requires Inv(c, s) && Rewrite(s, s', writer) && writer in s'.logs && w in s'.logs[writer]
    ensures w in s.ever && w.writer == writer
  {
    hide PoolPath, PoolInv, NoTies;
    assert PassInv(c, s, writer, s.passes[writer]);
  }

  /** What the rewrite marks as referenced covers every latest write the pass did not miss. */
  lemma {:induction false} RewriteMarks(c: Config, s: State, s': State, writer: string)
    requires Inv(c, s) && Rewrite(s, s', writer)
    ensures PassInv(c, s', writer, s'.passes[writer])
  {
    hide PoolPath, PoolInv, NoTies;
    var p := s.passes[writer];
    assert PassInv(c, s, writer, p);
    var winners := Winners(AllRead(p.read));
    var consolidated := Consolidates(s, writer, winners);
    forall w | w in Winners(s'.ever) && w.rec.Spilled() && p.unread == {}
      ensures Rel(c, w) in Kept(consolidated, winners, writer) || Since(s'.at, w, p.now)
    {
      LatestWasRead(c, s, writer, w);
      assert Safe(c, s, w) && Known(c, s, w);
      if w in winners && w.writer == writer { assert w in consolidated; }
    }
  }

  lemma {:induction false} RewriteKeepsPass(c: Config, s: State, s': State, writer: string, p: string)
    requires Inv(c, s) && Rewrite(s, s', writer) && p in s.passes && p != writer
    ensures PassInv(c, s', p, s'.passes[p])
  {
    hide PoolPath, PoolInv, NoTies, Winners, Kept, WriteInv, Safe, Consolidates, AllRead;
    assert PassInv(c, s, p, s.passes[p]);
    if s.passes[p].Reading? {
      var q := s.passes[p];
      forall l, w | l in s'.logs && w in s'.logs[l] && (l in q.read || l !in q.snap)
        ensures (l in q.read && w in q.read[l]) || Since(s'.at, w, q.now)
      {
        if l == writer { RewriteOnlyDrops(c, s, s', writer, w); }
      }
    }
  }

  /** The rewrite only drops writes of our log: the rest it read there. */
  lemma {:induction false} RewriteOnlyDrops(c: Config, s: State, s': State, writer: string, w: Write)
    requires Inv(c, s) && Rewrite(s, s', writer) && writer in s'.logs && w in s'.logs[writer]
    ensures writer in s.logs && w in s.logs[writer]
  {
    hide PoolPath, PoolInv, NoTies;
    var p := s.passes[writer];
    assert PassInv(c, s, writer, p);
    var l :| l in p.read && w in p.read[l];
  }

  lemma {:induction false} SweepKeeps(c: Config, s: State, s': State, writer: string, rel: string)
    requires Inv(c, s) && SweepFile(s, s', writer, rel)
    ensures Inv(c, s')
  {
    hide PoolPath, WriteInv, NoTies;
    SameWrites(c, s, s');
    var p := s.passes[writer];
    assert PassInv(c, s, writer, p);
    forall r | Fresh(s', r)
      ensures r in s'.pool
    { assert Fresh(s, r); }
    forall w | w in Winners(s'.ever)
      ensures Safe(c, s', w)
    { assert Safe(c, s, w); }
    forall q | q in s'.passes
      ensures PassInv(c, s', q, s'.passes[q])
    { assert PassInv(c, s, q, s.passes[q]); }
  }

  lemma {:induction false} EndKeeps(c: Config, s: State, s': State, writer: string)
    requires Inv(c, s) && End(s, s', writer)
    ensures Inv(c, s')
  {
    hide PoolPath, PoolInv, NoTies;
    assert PoolInv(c, s') by { SamePool(c, s, s'); }
    forall w | w in Winners(s'.ever)
      ensures Safe(c, s', w)
    { assert Safe(c, s, w); }
    forall q | q in s'.passes
      ensures PassInv(c, s', q, s'.passes[q])
    { assert PassInv(c, s, q, s.passes[q]); }
  }

  lemma {:induction false} StepKeeps(c: Config, s: State, s': State, step: Step)
    requires Inv(c, s) && NextBy(c, s, s', step)
    ensures Inv(c, s')
  {
    hide Inv, Tick, Start, Append, CompactLog, Begin, ReadLog, Rewrite, SweepFile, End;
    match step
    case TickStep => TickKeeps(c, s, s');
    case StartStep(w) => StartKeeps(c, s, s', w);
    case AppendStep(w) => AppendKeeps(c, s, s', w);
    case CompactStep(writer) => CompactKeeps(c, s, s', writer);
    case BeginStep(writer, now) => BeginKeeps(c, s, s', writer, now);
    case ReadStep(writer, log, ok) => ReadKeeps(c, s, s', writer, log, ok);
    case RewriteStep(writer) => RewriteKeeps(c, s, s', writer);
    case SweepStep(writer, rel) => SweepKeeps(c, s, s', writer, rel);
    case EndStep(writer) => EndKeeps(c, s, s', writer);
  }

  // ------------------------------------------------------------------ whole runs

  ghost predicate IsRun(c: Config, run: seq<State>, steps: seq<Step>) {
    && |run| == |steps| + 1 && Init(run[0])
    && forall i :: 0 <= i < |steps| ==> NextBy(c, run[i], run[i + 1], steps[i])
  }

  /** At every moment of every run, the latest-wins write of every key is in its writer's log, newest
      of all that any log holds for the key, and its pool file is present with the right bytes. */
  lemma {:induction false} LatestKeepsItsSpill(c: Config, run: seq<State>, steps: seq<Step>, i: nat, w: Write)
    requires IsRun(c, run, steps) && i < |run| && w in Winners(run[i].ever)
    ensures var s := run[i];
            && w.writer in s.logs && w in s.logs[w.writer]
            && (forall l, q :: l in s.logs && q in s.logs[l] && q.rec.key == w.rec.key ==> q.rec.Time() <= w.rec.Time())
            && (w.rec.Spilled() ==>
                  w.rec.spill.value in s.pool && s.pool[w.rec.spill.value].data == w.blob)
  {
    RunKeeps(c, run, steps, i);
    hide PoolPath, NoTies;
    var s := run[i];
    assert Safe(c, s, w) && Known(c, s, w);
    if w.rec.Spilled() {
      LoneWriter.PathInjective(c.env, c.prefix, w.blob, s.pool[Rel(c, w)].data);
    }
  }

  lemma {:induction false} RunKeeps(c: Config, run: seq<State>, steps: seq<Step>, i: nat)
    requires IsRun(c, run, steps) && i < |run|
    ensures Inv(c, run[i])
    decreases i
  {
    hide NextBy;
    if i > 0 {
      RunKeeps(c, run, steps, i - 1);
      StepKeeps(c, run[i - 1], run[i], steps[i - 1]);
    }
  }

  // ------------------------------------------------------------------ what is collected

  /** The write is the latest of its key among those read, and its value is in this file. */
  ghost predicate Refers(read: map<string, set<Write>>, rel: string, w: Write) {
    && w in AllRead(read) && w.rec.spill == Some(rel)
    && forall q :: q in AllRead(read) && q.rec.key == w.rec.key ==> q.rec.Time() <= w.rec.Time()
  }

  /** Once a pass that has read every log has rewritten its own, it can delete a pool file if and only if the file
      was last written or touched an hour before the pass or more, and no latest write read refers to it. */
  lemma {:induction false} CollectsExactly(s: State, s': State, writer: string, rel: string)
    requires writer in s.passes && s.passes[writer].Reading? && s.passes[writer].unread == {} && rel != ""
    requires Rewrite(s, s', writer)
    ensures var p := s.passes[writer];
            (exists after :: SweepFile(s', after, writer, rel))
            <==> && rel in s.pool && p.now - s.pool[rel].touched >= 3_600_000_000_000
                 && !exists w :: Refers(p.read, rel, w)
  {
    hide AllRead;
    var p := s.passes[writer];
    var winners := Winners(AllRead(p.read));
    var kept := Kept(Consolidates(s, writer, winners), winners, writer);
    if rel in s.pool {
      if w :| Refers(p.read, rel, w) {
        assert w in winners;
        if w.writer == writer { assert w in Consolidates(s, writer, winners); }
        assert rel in kept;
      }
      if rel in kept {
        var w :| w in winners && w.rec.Spilled() && w.rec.spill.value == rel;
        assert Refers(p.read, rel, w);
      }
    }
    var after := s'.(pool := s'.pool - {rel});
    if rel in s.pool && rel !in kept && p.now - s.pool[rel].touched >= GRACE {
      assert SweepFile(s', after, writer, rel);
    }
  }
}
