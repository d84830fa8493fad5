/** One prefix directory as it lies on disk: the writers' logs and the shared spill pool. */
module Store {
  import opened Bytes
  import opened Options
  import opened Order
  import opened Pickle
  import opened Frames
  import opened ScanFacts
  import opened Fold

  /** A log file; reading or stat-ing it fails when it is not `readable`.  `mtime` moves on every write. */
  datatype LogFile = LogFile(data: bytes, readable: bool, mtime: int)

  /** A pool file and the later of its mtime and ctime. */
  datatype PoolFile = PoolFile(data: bytes, touched: int)

  /** Logs by file name, pool files by the relative path that records refer to. */
  datatype Dir = Dir(logs: map<string, LogFile>, pool: map<string, PoolFile>)

  // ------------------------------------------------------------------ scanning logs

  /** The records of one log, each with its place. */
  function LocateAll(log: string, spans: seq<Span>): (items: seq<Located>)
    ensures |items| == |spans|
    ensures forall i :: 0 <= i < |items| ==>
              items[i] == Located(spans[i].rec, log, spans[i].start, spans[i].end)
  {
    seq(|spans|, i requires 0 <= i < |spans| => Located(spans[i].rec, log, spans[i].start, spans[i].end))
  }

  function ScanLog(env: Env, log: string, data: bytes): seq<Located> {
    LocateAll(log, Walk(env, data, 0))
  }

  /** The records of the readable logs among `names`, log by log. */
  function Gather(env: Env, logs: map<string, LogFile>, names: seq<string>): seq<Located> {
    if names == [] then []
    else
      var front, last := names[..|names| - 1], names[|names| - 1];
      Gather(env, logs, front)
      + (if last in logs && logs[last].readable then ScanLog(env, last, logs[last].data) else [])
  }

  /** What a disk-fresh scan of the whole prefix sees. */
  function AllItems(env: Env, logs: map<string, LogFile>): seq<Located> {
    Gather(env, logs, SortedNames(logs.Keys))
  }

  /** The item is a record of a readable log, at the place where its frame parses. */
  ghost predicate Placed(env: Env, logs: map<string, LogFile>, x: Located) {
    && x.log in logs && logs[x.log].readable
    && ParseFrame(env, logs[x.log].data, x.start) == Some(Span(x.rec, x.start, x.end))
  }

  lemma {:induction false} ScanLogMembers(env: Env, log: string, data: bytes)
    ensures forall x :: x in ScanLog(env, log, data) ==>
              x.log == log && ParseFrame(env, data, x.start) == Some(Span(x.rec, x.start, x.end))
  {
    hide ParseFrame, Walk;
    WalkOrdered(env, data, 0);
    var w := Walk(env, data, 0);
    forall x | x in ScanLog(env, log, data)
      ensures x.log == log && ParseFrame(env, data, x.start) == Some(Span(x.rec, x.start, x.end))
    {
      var i :| 0 <= i < |w| && ScanLog(env, log, data)[i] == x;
      assert w[i] in w;
    }
  }

  /** A gathered item is a record of one of the logs named. */
  lemma {:induction false} GatherMembers(env: Env, logs: map<string, LogFile>, names: seq<string>)
    ensures forall x :: x in Gather(env, logs, names) <==>
              x.log in names && x.log in logs && logs[x.log].readable
              && x in ScanLog(env, x.log, logs[x.log].data)
    ensures forall x :: x in Gather(env, logs, names) ==> Placed(env, logs, x)
  {
    hide ParseFrame, ScanLog;
    if names != [] {
      var last := names[|names| - 1];
      GatherMembers(env, logs, names[..|names| - 1]);
      assert names == names[..|names| - 1] + [last];
      if last in logs && logs[last].readable {
        ScanLogMembers(env, last, logs[last].data);
      }
    }
  }

  /** A disk-fresh scan sees exactly the records of the readable logs. */
  lemma {:induction false} AllItemsMembers(env: Env, logs: map<string, LogFile>)
    ensures forall x :: x in AllItems(env, logs) <==>
              x.log in logs && logs[x.log].readable && x in ScanLog(env, x.log, logs[x.log].data)
  {
    hide ScanLog, Gather, Placed;
    GatherMembers(env, logs, SortedNames(logs.Keys));
  }

  // ------------------------------------------------------------------ spills

  /** `_spill_read`: the first pickle in the file, when the file is there and loads. */
  function SpillRead(env: Env, pool: map<string, PoolFile>, rel: string): Option<PyObj> {
    if rel !in pool then None
    else match env.load(pool[rel].data)
      case Raised => None
      case Loaded(v, _) => Some(v)
  }

  /** What a point read serves from a record: its value, or a miss when the record is dead, its value
      cannot be decoded here, or its spill is absent or undecodable. */
  function Serve(env: Env, pool: map<string, PoolFile>, r: Record, now: int): Option<PyObj> {
    if !r.LiveAt(now) then None
    else if r.Spilled() then SpillRead(env, pool, r.spill.value)
    else if r.value.Opaque? then None
    else Some(r.value.v)
  }
}
