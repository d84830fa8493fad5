/** The SQLite cache: trigger-kept totals, side files, culling, and the calls that use them. */
module SqliteCaches {
  import opened Bytes
  import opened Options
  import opened Expiry
  import opened SqliteRows
  import opened SqliteFiles

  const CULL_BATCH: nat := 64
  const ATIME_RESOLUTION: int := 60_000_000_000   // 60 s, in nanoseconds

  function IndexOf(rows: seq<Row>, rowid: nat): (r: Option<nat>)
    ensures r.Some? ==> r.value < |rows| && rows[r.value].rowid == rowid
    ensures r.None? ==> forall i :: 0 <= i < |rows| ==> rows[i].rowid != rowid
  {
    FirstWhere(rows, (r: Row) => r.rowid == rowid)
  }

  lemma {:induction false} IndexIs(rows: seq<Row>, i: nat)
    requires Ascending(rows) && i < |rows|
    ensures IndexOf(rows, rows[i].rowid) == Some(i)
  {
    var k := IndexOf(rows, rows[i].rowid).value;
    assert k < |rows| && rows[k].rowid == rows[i].rowid;
    assert forall a, b :: 0 <= a < b < |rows| ==> rows[a].rowid < rows[b].rowid;
  }

  /** The rowid SQLite gives a new row. */
  function NextId(rows: seq<Row>): nat {
    if rows == [] then 1 else rows[|rows| - 1].rowid + 1
  }

  /** The table after `INSERT ... ON CONFLICT(key) DO UPDATE`: a key already there keeps its rowid. */
  function Upserted(rows: seq<Row>, row: Row): seq<Row> {
    match Find(rows, row.key)
    case Some(i) => rows[i := row.(rowid := rows[i].rowid)]
    case None => rows + [row.(rowid := NextId(rows))]
  }

  /** The row a `set` stores: a value of `minFileSize` bytes or more goes to the side file. */
  function NewRow(key: string, blob: bytes, expire: Option<int>, now: int, minFileSize: int, name: string): Row {
    var spills := |blob| >= minFileSize;
    Row(0, key, now, now, ExpiryTime(expire, now), |blob|,
        if spills then Some(name) else None, if spills then [] else blob)
  }

  /** The side file of `key`'s row. */
  function FileOf(rows: seq<Row>, key: string): Option<string> {
    match Find(rows, key)
    case Some(i) => rows[i].filename
    case None => None
  }

  lemma {:induction false} UpsertIsSound(rows: seq<Row>, files: map<string, bytes>, row: Row, blob: bytes)
    requires Sound(rows, files) && row.size == |blob|
    requires row.filename.Some? ==> row.filename.value !in files
    requires row.filename.None? ==> row.value == blob
    ensures var have := Unlinked(Spilled(files, row.filename, blob), FileOf(rows, row.key));
      && Sound(Upserted(rows, row), have)
      && View(Upserted(rows, row), have) == View(rows, files)[row.key := Slot(blob, row.expireTime)]
    ensures FileOf(rows, row.key).Some? ==> FileOf(rows, row.key).value in files
  {
    hide View;
    match Find(rows, row.key)
    case Some(i) => UpdateIsSound(rows, files, i, row.(rowid := rows[i].rowid), blob);
    case None =>
      NextIdIsNew(rows, files);
      InsertIsSound(rows, files, row.(rowid := NextId(rows)), blob);
  }

  lemma {:induction false} NextIdIsNew(rows: seq<Row>, files: map<string, bytes>)
    requires Sound(rows, files)
    ensures forall i :: 0 <= i < |rows| ==> rows[i].rowid < NextId(rows)
  {
  }

  lemma {:induction false} UpsertedTotal(rows: seq<Row>, row: Row)
    ensures Total(Upserted(rows, row)) <= Total(rows) + row.size
  {
    match Find(rows, row.key)
    case Some(i) => TotalUpdated(rows, i, row.(rowid := rows[i].rowid));
    case None => TotalAppended(rows, row.(rowid := NextId(rows)));
  }

  /** Does the key's row outlive the cull? */
  predicate Stays(p: Policy, rows: seq<Row>, key: string, limit: Option<int>) {
    match Find(rows, key)
    case None => false
    case Some(i) =>
      limit.None? || Total(rows) <= limit.value || !OverLowWater(Total(NotOlder(p, rows, rows[i])), limit.value)
  }

  lemma {:induction false} KeyUpserted(rows: seq<Row>, row: Row, files: map<string, bytes>)
    requires Sound(rows, files)
    ensures Ascending(Upserted(rows, row)) && KeysDiffer(Upserted(rows, row))
    ensures Find(Upserted(rows, row), row.key).Some?
  {
    var all := Upserted(rows, row);
    var i := match Find(rows, row.key) case Some(i) => i case None => |rows|;
    assert all[i].key == row.key;
  }

  /** The key's row is among the rows culled exactly when it stays. */
  lemma {:induction false} StaysExactly(p: Policy, rows: seq<Row>, key: string, limit: Option<int>, left: seq<Row>,
                                        files: map<string, bytes>)
    requires Ascending(rows) && KeysDiffer(rows) && left == Culled(p, rows, limit)
    ensures key in View(left, files) <==> Stays(p, rows, key, limit)
  {
    hide Total, Shrunk, NotOlder, OverLowWater, Ascending;
    if limit.Some? { ShrunkKeepsNewest(p, rows, limit.value); }
    match Find(rows, key)
    case Some(i) =>
      if limit.Some? { SurvivesExactly(p, rows, rows[i], limit.value); }
      if rows[i] in left { InKeys(left, rows[i], files); }
      if key in View(left, files) {
        var j := InView(left, files, key);
        assert left[j] in rows;
      }
    case None =>
      forall r | r in left
        ensures r.key != key
      { var i :| 0 <= i < |rows| && rows[i] == r; }
      NoRowNoEntry(left, key, files);
  }

  lemma {:induction false} NoRowNoEntry(rows: seq<Row>, key: string, files: map<string, bytes>)
    requires forall r :: r in rows ==> r.key != key
    ensures key !in View(rows, files)
  {}

  lemma {:induction false} InKeys(rows: seq<Row>, row: Row, files: map<string, bytes>)
    requires row in rows
    ensures row.key in View(rows, files)
  {
    var i :| 0 <= i < |rows| && rows[i] == row;
    assert row.key in Keys(rows);
  }

  /** The table after a `get`: a stale row goes, and under least-recently-used an old access time is renewed. */
  function AfterGet(p: Policy, rows: seq<Row>, key: string, now: int): seq<Row> {
    match Find(rows, key)
    case Some(i) =>
      if Stale(rows[i].expireTime, now) then RemoveAt(rows, i)
      else if p.LeastRecentlyUsed? && now - rows[i].accessTime > ATIME_RESOLUTION then
        rows[i := rows[i].(accessTime := now)]
      else rows
    case None => rows
  }

  function AfterDelete(rows: seq<Row>, key: string): seq<Row> {
    match Find(rows, key)
    case Some(i) => RemoveAt(rows, i)
    case None => rows
  }

  lemma {:induction false} TouchIsSound(rows: seq<Row>, files: map<string, bytes>, i: nat, now: int)
    requires Sound(rows, files) && i < |rows|
    ensures var touched := rows[i := rows[i].(accessTime := now)];
      Sound(touched, files) && View(touched, files) == View(rows, files) && Total(touched) == Total(rows)
  {
    hide View, FilesMatch;
    var row := rows[i].(accessTime := now);
    TotalUpdated(rows, i, row);
    TouchMatches(rows, files, i, now);
    UpdatedView(rows, files, i, row, files);
    ViewAt(rows, files, i);
  }

  lemma {:induction false} TouchMatches(rows: seq<Row>, files: map<string, bytes>, i: nat, now: int)
    requires FilesMatch(rows, files) && i < |rows|
    ensures FilesMatch(rows[i := rows[i].(accessTime := now)], files)
  {
    hide Named;
    var touched := rows[i := rows[i].(accessTime := now)];
    assert forall k :: 0 <= k < |rows| ==> touched[k].filename == rows[k].filename;
    assert forall k :: 0 <= k < |rows| ==>
           touched[k].size == rows[k].size && BlobOf(touched[k], files) == BlobOf(rows[k], files);
    forall name | name in files ensures Named(touched, name) { StillNamed(rows, touched, name); }
  }

  lemma {:induction false} StillNamed(rows: seq<Row>, same: seq<Row>, name: string)
    requires Named(rows, name) && |same| == |rows|
    requires forall k :: 0 <= k < |rows| ==> same[k].filename == rows[k].filename
    ensures Named(same, name)
  {
    var k :| 0 <= k < |rows| && rows[k].filename == Some(name);
    assert same[k].filename == Some(name);
  }

  /** The stale rows at `cutoff`, and the others. */
  function StaleRows(rows: seq<Row>, cutoff: int): seq<Row> {
    if rows == [] then []
    else (if Stale(rows[0].expireTime, cutoff) then [rows[0]] else []) + StaleRows(rows[1..], cutoff)
  }

  function FreshRows(rows: seq<Row>, cutoff: int): seq<Row> {
    if rows == [] then []
    else (if Stale(rows[0].expireTime, cutoff) then [] else [rows[0]]) + FreshRows(rows[1..], cutoff)
  }

  lemma {:induction false} FirstStale(rows: seq<Row>, cutoff: int) returns (i: nat)
    requires StaleRows(rows, cutoff) != []
    ensures i < |rows| && Stale(rows[i].expireTime, cutoff) && rows[i] == StaleRows(rows, cutoff)[0]
    ensures StaleRows(RemoveAt(rows, i), cutoff) == StaleRows(rows, cutoff)[1..]
    ensures FreshRows(RemoveAt(rows, i), cutoff) == FreshRows(rows, cutoff)
  {
    if Stale(rows[0].expireTime, cutoff) {
      i := 0;
      assert RemoveAt(rows, 0) == rows[1..];
    } else {
      var k := FirstStale(rows[1..], cutoff);
      i := k + 1;
      assert RemoveAt(rows, i)[1..] == RemoveAt(rows[1..], k) && RemoveAt(rows, i)[0] == rows[0];
    }
  }

  lemma {:induction false} NoneStale(rows: seq<Row>, cutoff: int)
    requires StaleRows(rows, cutoff) == []
    ensures FreshRows(rows, cutoff) == rows
    ensures forall i :: 0 <= i < |rows| ==> !Stale(rows[i].expireTime, cutoff)
  {
    if rows != [] {
      NoneStale(rows[1..], cutoff);
      assert forall i :: 1 <= i < |rows| ==> rows[i] == rows[1..][i - 1];
    }
  }

  /** The next victim in eviction order, and what its eviction leaves to do. */
  lemma {:induction false} EvictOne(p: Policy, rows: seq<Row>, limit: int)
    requires rows != [] && OverLowWater(Total(rows), limit)
    ensures Aged(p, rows)[0] == rows[OldestAt(p, rows)]
    ensures Aged(p, rows)[1..] == Aged(p, RemoveAt(rows, OldestAt(p, rows)))
    ensures Shrunk(p, rows, limit) == Shrunk(p, RemoveAt(rows, OldestAt(p, rows)), limit)
  {
  }

  lemma {:induction false} FileIsThere(rows: seq<Row>, files: map<string, bytes>, i: nat)
    requires FilesMatch(rows, files) && i < |rows|
    ensures rows[i].filename.Some? ==> rows[i].filename.value in files
  {
  }

  lemma {:induction false} NotHeld(rows: seq<Row>, files: map<string, bytes>, key: string)
    ensures Find(rows, key).None? ==> key !in View(rows, files)
  {
  }

  lemma {:induction false} SoundSize(rows: seq<Row>, files: map<string, bytes>)
    requires Sound(rows, files)
    ensures |View(rows, files)| == |rows|
  {
    ViewSize(rows, files);
  }

  lemma {:induction false} NothingHeld()
    ensures Total([]) == 0 && Sound([], map[]) && View([], map[]) == map[]
  {
  }

  /** The entries a sweep at `cutoff` drops. */
  function StaleKeys(view: map<string, Slot>, cutoff: int): set<string> {
    set key | key in view && Stale(view[key].expireTime, cutoff)
  }

  lemma {:induction false} StaleCount(before: map<string, Slot>, after: map<string, Slot>, cutoff: int)
    requires Within(after, before)
    requires forall key :: key in after ==> !Stale(before[key].expireTime, cutoff)
    requires forall key :: key in before && key !in after ==> Stale(before[key].expireTime, cutoff)
    ensures after == before - StaleKeys(before, cutoff)
    ensures |StaleKeys(before, cutoff)| == |before| - |after|
  {
    assert before.Keys == after.Keys + StaleKeys(before, cutoff);
    assert after.Keys !! StaleKeys(before, cutoff);
  }

  predicate Shrinks(now: map<string, bytes>, before: map<string, bytes>) {
    now.Keys <= before.Keys
  }

  class SqliteCache {
    const policy: Policy
    const sizeLimit: Option<int>
    const minFileSize: int

    var rows: seq<Row>
    var size: int          // the Settings table
    var count: int
    var files: map<string, bytes>

    /** The totals are the table's true totals, and the side files the rows' own. */
    ghost predicate Valid()
      reads this
    {
      size == Total(rows) && count == |rows| && Sound(rows, files)
    }

    /** The mapping held. */
    ghost function Held(): map<string, Slot>
      reads this
    {
      View(rows, files)
    }

    constructor (policy: Policy, sizeLimit: Option<int>, minFileSize: int)
      ensures Valid() && Held() == map[] && rows == [] && files == map[]
      ensures this.policy == policy && this.sizeLimit == sizeLimit && this.minFileSize == minFileSize
    {
      this.policy, this.sizeLimit, this.minFileSize := policy, sizeLimit, minFileSize;
      rows, size, count, files := [], 0, 0, map[];
    }

    // ----- statements, with the triggers they fire

    method SqlUpsert(row: Row)
      requires size == Total(rows) && count == |rows|
      modifies `rows, `size, `count
      ensures rows == Upserted(old(rows), row)
      ensures size == Total(rows) && count == |rows|
    {
      match Find(rows, row.key) {
        case Some(i) =>
          TotalUpdated(rows, i, row.(rowid := rows[i].rowid));
          size := size + row.size - rows[i].size;
          rows := rows[i := row.(rowid := rows[i].rowid)];
        case None =>
          TotalAppended(rows, row.(rowid := NextId(rows)));
          size := size + row.size;
          count := count + 1;
          rows := rows + [row.(rowid := NextId(rows))];
      }
    }

    method SqlTouch(i: nat, now: int)
      requires Valid() && i < |rows|
      modifies `rows, `size
      ensures Valid() && rows == old(rows)[i := old(rows)[i].(accessTime := now)]
      ensures Held() == old(Held()) && size == old(size)
    {
      hide Sound, View, Total;
      TouchIsSound(rows, files, i, now);
      var row := rows[i].(accessTime := now);
      size := size + row.size - rows[i].size;
      rows := rows[i := row];
    }

    method SqlDelete(rowid: nat)
      requires size == Total(rows) && count == |rows|
      modifies `rows, `size, `count
      ensures match IndexOf(old(rows), rowid)
        case Some(i) => rows == RemoveAt(old(rows), i)
        case None => rows == old(rows)
      ensures size == Total(rows) && count == |rows|
    {
      match IndexOf(rows, rowid) {
        case Some(i) =>
          TotalWithout(rows, i);
          size := size - rows[i].size;
          count := count - 1;
          rows := RemoveAt(rows, i);
        case None =>
      }
    }

    method RemoveSpill(name: Option<string>)
      modifies `files
      ensures files == Unlinked(old(files), name)
    {
      if name.Some? { files := files - {name.value}; }
    }

    /** Deletes a row and its side file. */
    method DeleteRow(rowid: nat, filename: Option<string>, ghost i: nat)
      requires Valid() && i < |rows| && rows[i].rowid == rowid && rows[i].filename == filename
      modifies `rows, `size, `count, `files
      ensures Valid() && rows == RemoveAt(old(rows), i)
      ensures Held() == old(Held()) - {old(rows)[i].key}
      ensures Shrinks(files, old(files)) && size <= old(size)
    {
      hide Ascending, KeysDiffer, FilesMatch, View, Total;
      IndexIs(rows, i);
      RemovalIsSound(rows, files, i);
      TotalWithout(rows, i);
      SqlDelete(rowid);
      RemoveSpill(filename);
    }

    // ----- culling

    /** One batch: evicts its rows in turn until the total is under low water or the batch is done. */
    method CullBatch(limit: int)
      requires Valid() && rows != [] && OverLowWater(size, limit)
      modifies `rows, `size, `count, `files
      ensures Valid() && |rows| < |old(rows)|
      ensures Shrunk(policy, rows, limit) == Shrunk(policy, old(rows), limit)
      ensures Within(Held(), old(Held())) && Shrinks(files, old(files)) && size <= old(size)
    {
      hide Sound, View, Total, Aged, Shrunk, WithoutOldest, OverLowWater;
      var batch := Aged(policy, rows)[..if |rows| < CULL_BATCH then |rows| else CULL_BATCH];
      var j := 0;
      while j < |batch|
        invariant 0 <= j <= |batch| && Valid()
        invariant |rows| == |old(rows)| - j && |batch| - j <= |rows|
        invariant batch[j..] == Aged(policy, rows)[..|batch| - j]
        invariant Shrunk(policy, rows, limit) == Shrunk(policy, old(rows), limit)
        invariant Within(Held(), old(Held())) && Shrinks(files, old(files)) && size <= old(size)
        invariant j < |batch| ==> OverLowWater(size, limit)
        decreases |batch| - j
      {
        var victim := batch[j];
        ghost var i := OldestAt(policy, rows);
        EvictOne(policy, rows, limit);
        assert victim == batch[j..][0];
        assert batch[j + 1..] == batch[j..][1..];
        DeleteRow(victim.rowid, victim.filename, i);
        j := j + 1;
        if !OverLowWater(size, limit) { break; }
      }
    }

    method Cull(limit: int)
      requires Valid()
      modifies `rows, `size, `count, `files
      ensures Valid() && rows == Culled(policy, old(rows), Some(limit))
      ensures Within(Held(), old(Held())) && Shrinks(files, old(files)) && size <= old(size)
      ensures old(size) <= limit ==> Held() == old(Held())
    {
      if size <= limit { return; }
      while OverLowWater(size, limit) && rows != []
        invariant Valid()
        invariant Shrunk(policy, rows, limit) == Shrunk(policy, old(rows), limit)
        invariant Within(Held(), old(Held())) && Shrinks(files, old(files)) && size <= old(size)
        decreases |rows|
      {
        CullBatch(limit);
      }
    }

    // ----- calls

    method Get(key: string, now: int) returns (r: Option<bytes>)
      requires Valid()
      modifies this
      ensures Valid() && rows == AfterGet(policy, old(rows), key, now)
      ensures r == Answer(old(Held()), key, now)
      ensures Held() == if key in old(Held()) && r.None? then old(Held()) - {key} else old(Held())
      ensures Shrinks(files, old(files)) && size <= old(size)
    {
      hide Ascending, FilesMatch, View, Total, RemoveAt;
      NotHeld(rows, files, key);
      match Find(rows, key) {
        case None =>
          return None;
        case Some(i) =>
          var row := rows[i];
          ViewAt(rows, files, i);
          FileIsThere(rows, files, i);
          if Stale(row.expireTime, now) {
            DeleteRow(row.rowid, row.filename, i);
            return None;
          }
          if policy.LeastRecentlyUsed? && now - row.accessTime > ATIME_RESOLUTION {
            SqlTouch(i, now);
          }
          r := Some(match row.filename case Some(name) => files[name] case None => row.value);
      }
    }

    method Contains(key: string, now: int) returns (r: bool)
      requires Valid()
      ensures r <==> Answer(Held(), key, now).Some?
    {
      match Find(rows, key) {
        case None => r := false;
        case Some(i) =>
          ViewAt(rows, files, i);
          r := rows[i].expireTime.None? || rows[i].expireTime.value >= now;
      }
    }

    /** `set` answers `True` whatever the cull does with the entry: it is there afterwards if and only if
        nothing had to go, or it and the rows not older than it fit in 90% of the limit. */
    method Set(key: string, blob: bytes, expire: Option<int>, now: int, name: string) returns (stored: bool)
      requires Valid() && name !in files
      modifies this
      ensures Valid() && stored
      ensures key in Held() <==>
                Stays(policy, Upserted(old(rows), NewRow(key, blob, expire, now, minFileSize, name)), key, sizeLimit)
      ensures rows == Culled(policy, Upserted(old(rows), NewRow(key, blob, expire, now, minFileSize, name)), sizeLimit)
      ensures Within(Held(), old(Held())[key := Slot(blob, ExpiryTime(expire, now))])
      ensures sizeLimit.None? || old(size) + |blob| <= sizeLimit.value ==>
        Held() == old(Held())[key := Slot(blob, ExpiryTime(expire, now))]
      ensures sizeLimit.Some? ==> size <= sizeLimit.value || (sizeLimit.value < 0 && rows == [])
      ensures size <= old(size) + |blob|
      ensures forall f :: f in files ==> f in old(files) || f == name
    {
      hide Sound, View, Total, Upserted, FileOf, OverLowWater, Shrunk;
      var filename: Option<string> := None;
      if |blob| >= minFileSize {
        filename := Some(name);
        files := files[name := blob];
      }
      var row := Row(0, key, now, now, ExpiryTime(expire, now), |blob|, filename, if filename.Some? then [] else blob);
      var previous := FileOf(rows, key);
      UpsertIsSound(rows, old(files), row, blob);
      UpsertedTotal(rows, row);
      ghost var upserted := Upserted(rows, row);
      KeyUpserted(rows, row, old(files));
      SqlUpsert(row);
      if previous.Some? && previous != filename { RemoveSpill(previous); }
      if sizeLimit.Some? {
        CulledIsWithin(policy, rows, sizeLimit.value);
        Cull(sizeLimit.value);
      }
      StaysExactly(policy, upserted, key, sizeLimit, rows, files);
      stored := true;
    }

    method Delete(key: string) returns (existed: bool)
      requires Valid()
      modifies this
      ensures Valid() && rows == AfterDelete(old(rows), key)
      ensures existed <==> key in old(Held())
      ensures Held() == old(Held()) - {key}
      ensures Shrinks(files, old(files)) && size <= old(size)
    {
      match Find(rows, key) {
        case None =>
          assert Held() - {key} == Held();
          existed := false;
        case Some(i) =>
          ViewAt(rows, files, i);
          DeleteRow(rows[i].rowid, rows[i].filename, i);
          existed := true;
      }
    }

    method Clear() returns (n: int)
      requires Valid()
      modifies this
      ensures Valid() && Held() == map[] && rows == [] && files == map[]
      ensures n == |old(Held())| && size <= old(size)
    {
      hide Total, View, Sound;
      NothingHeld();
      SoundSize(rows, files);
      n := count;
      size := size - Total(rows);   // the delete triggers, row by row
      count := count - |rows|;
      rows := [];
      files := map[];
    }

    /** Sweeps the stale entries. */
    method Expire(cutoff: int) returns (n: int)
      requires Valid()
      modifies this
      ensures Valid() && rows == FreshRows(old(rows), cutoff)
      ensures n == |StaleKeys(old(Held()), cutoff)|
      ensures Held() == old(Held()) - StaleKeys(old(Held()), cutoff)
      ensures Shrinks(files, old(files)) && size <= old(size)
    {
      hide Ascending, KeysDiffer, FilesMatch, View, Total, StaleRows, FreshRows, RemoveAt;
      var stale := StaleRows(rows, cutoff);
      var j := 0;
      ViewSize(rows, files);
      while j < |stale|
        invariant 0 <= j <= |stale| && Valid()
        invariant StaleRows(rows, cutoff) == stale[j..]
        invariant FreshRows(rows, cutoff) == FreshRows(old(rows), cutoff)
        invariant |rows| == |old(rows)| - j
        invariant Within(Held(), old(Held())) && Shrinks(files, old(files)) && size <= old(size)
        invariant forall key :: key in old(Held()) && key !in Held() ==> Stale(old(Held())[key].expireTime, cutoff)
      {
        ghost var i := FirstStale(rows, cutoff);
        assert stale[j..][0] == stale[j] && stale[j..][1..] == stale[j + 1..];
        ViewAt(rows, files, i);
        DeleteRow(stale[j].rowid, stale[j].filename, i);
        j := j + 1;
      }
      NoneStale(rows, cutoff);
      ViewSize(rows, files);
      forall key | key in Held() ensures !Stale(old(Held())[key].expireTime, cutoff) {
        var i := InView(rows, files, key);
      }
      StaleCount(old(Held()), Held(), cutoff);
      n := |stale|;
    }
  }
}
