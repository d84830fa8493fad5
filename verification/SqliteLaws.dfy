/** Which entries the SQLite cache evicts, told from the calls: the columns, the last uses of keys, and the water
    mark, written out. */
module SqliteLaws {
  import opened Bytes
  import opened Options
  import opened SqliteRows
  import opened SqliteFiles
  import opened SqliteCaches
  import opened SqliteRuns

  /** The row goes before the other: by the column of the policy, and by rowid among equal times. */
  predicate GoesBefore(p: Policy, r: Row, s: Row) {
    match p
    case LeastRecentlyStored => r.storeTime < s.storeTime || (r.storeTime == s.storeTime && r.rowid < s.rowid)
    case LeastRecentlyUsed => r.accessTime < s.accessTime || (r.accessTime == s.accessTime && r.rowid < s.rowid)
  }

  /** Every row evicted goes before every row kept, and nothing changes in the rows kept. */
  lemma {:induction false} EvictedGoBefore(p: Policy, rows: seq<Row>, limit: Option<int>, r: Row, s: Row)
    requires Ascending(rows) && r in rows && r !in Culled(p, rows, limit) && s in Culled(p, rows, limit)
    ensures s in rows && GoesBefore(p, r, s)
  {
    hide Shrunk, Total, Ascending;
    ShrunkKeepsNewest(p, rows, limit.value);
  }

  /** Nothing is evicted within the limit.  Past it, rows go until at most 90% of the limit is left, or none; and
      with the last of them kept there would be more. */
  lemma {:induction false} CullStopsAtWaterMark(p: Policy, rows: seq<Row>, limit: int)
    requires Ascending(rows)
    ensures var kept := Culled(p, rows, Some(limit));
            if Total(rows) <= limit then kept == rows
            else
              && (kept == [] || 10 * Total(kept) <= 9 * limit)
              && (rows != [] ==> exists r :: r in rows && r !in kept && 10 * (Total(kept) + r.size) > 9 * limit)
  {
    hide Ascending, Evicted, Shrunk, Total;
    TotalOfNone();
    if Total(rows) > limit {
      var k := ShrunkIsShortest(p, rows, limit);
      EmptyAtEnd(p, rows);
      EvictedNone(p, rows);
      if rows != [] { var _ := LastEvicted(p, rows, k - 1); }
    }
  }

  lemma {:induction false} TotalOfNone()
    ensures Total([]) == 0
  {}

  lemma {:induction false} EvictedNone(p: Policy, rows: seq<Row>)
    ensures Evicted(p, rows, 0) == rows
  {}

  /** The row that goes after `k` others. */
  lemma {:induction false} LastEvicted(p: Policy, rows: seq<Row>, k: nat) returns (r: Row)
    requires Ascending(rows) && k < |rows|
    ensures r in rows && r !in Evicted(p, rows, k + 1)
    ensures Total(Evicted(p, rows, k)) == Total(Evicted(p, rows, k + 1)) + r.size
  {
    EvictedFacts(p, rows, k);
    EvictedSnoc(p, rows, k);
    hide Ascending, Evicted, Total, Older, OldestAt;
    var before := Evicted(p, rows, k);
    TotalWithout(before, OldestAt(p, before));
    OldestGoes(p, before);
    r := Oldest(p, before);
    NotAfterItself(p, before);
  }

  lemma {:induction false} NotAfterItself(p: Policy, rows: seq<Row>)
    requires rows != [] && forall r :: r in WithoutOldest(p, rows) ==> Older(p, Oldest(p, rows), r)
    ensures Oldest(p, rows) !in WithoutOldest(p, rows)
  {
    hide WithoutOldest, Oldest;
  }

  lemma {:induction false} EvictedFacts(p: Policy, rows: seq<Row>, k: nat)
    requires k <= |rows| && Ascending(rows)
    ensures var left := Evicted(p, rows, k);
            |left| == |rows| - k && Ascending(left) && forall r :: r in left ==> r in rows
    decreases k
  {
    hide WithoutOldest, Ascending;
    if k > 0 {
      OldestGoes(p, rows);
      RestIsShorter(p, rows);
      EvictedFacts(p, WithoutOldest(p, rows), k - 1);
    }
  }

  lemma {:induction false} EvictedSnoc(p: Policy, rows: seq<Row>, k: nat)
    requires k < |rows|
    ensures Evicted(p, rows, k) != [] && Evicted(p, rows, k + 1) == WithoutOldest(p, Evicted(p, rows, k))
    decreases k
  {
    hide WithoutOldest;
    RestIsShorter(p, rows);
    if k > 0 { EvictedSnoc(p, WithoutOldest(p, rows), k - 1); }
  }

  // ----- last uses, told from the calls

  /** When the key was last set. */
  function LastSet(calls: seq<Call>, key: string): Option<int> {
    if calls == [] then None
    else match calls[|calls| - 1]
      case SetCall(k, _, _, now, _) => if k == key then Some(now) else LastSet(calls[..|calls| - 1], key)
      case _ => LastSet(calls[..|calls| - 1], key)
  }

  /** When the key was last set, or last read more than a minute after that. */
  function LastUse(calls: seq<Call>, key: string): Option<int> {
    if calls == [] then None
    else
      var before := LastUse(calls[..|calls| - 1], key);
      match calls[|calls| - 1]
      case SetCall(k, _, _, now, _) => if k == key then Some(now) else before
      case GetCall(k, now) =>
        if k == key && before.Some? && now - before.value > 60_000_000_000 then Some(now) else before
      case _ => before
  }

  /** A row's times are those of the last calls that used its key; a `get` counts under least-recently-used. */
  predicate TimesTold(p: Policy, calls: seq<Call>, r: Row) {
    && LastSet(calls, r.key) == Some(r.storeTime)
    && Some(r.accessTime) == if p.LeastRecentlyUsed? then LastUse(calls, r.key) else LastSet(calls, r.key)
  }

  ghost predicate AllTold(p: Policy, calls: seq<Call>, rows: seq<Row>) {
    Ascending(rows) && KeysDiffer(rows) && forall r :: r in rows ==> TimesTold(p, calls, r)
  }

  lemma {:induction false} FewerTold(p: Policy, calls: seq<Call>, rows: seq<Row>, fewer: seq<Row>)
    requires AllTold(p, calls, rows) && Ascending(fewer) && forall r :: r in fewer ==> r in rows
    ensures AllTold(p, calls, fewer)
  {
    hide TimesTold;
    forall i, j | 0 <= i < j < |fewer|
      ensures fewer[i].key != fewer[j].key
    {
      assert fewer[i] in rows && fewer[j] in rows && fewer[i].rowid < fewer[j].rowid;
      var a :| 0 <= a < |rows| && rows[a] == fewer[i];
      var b :| 0 <= b < |rows| && rows[b] == fewer[j];
      assert a != b;
    }
  }

  /** A call that neither sets nor reads a key does not change when it was last used. */
  lemma {:induction false} OtherKeys(p: Policy, calls: seq<Call>, call: Call, r: Row)
    requires TimesTold(p, calls, r)
    requires call.SetCall? ==> call.key != r.key
    requires call.GetCall? ==> call.key != r.key || p.LeastRecentlyStored? || call.now - r.accessTime <= 60_000_000_000
    ensures TimesTold(p, calls + [call], r)
  {
    assert (calls + [call])[..|calls|] == calls;
  }

  lemma {:induction false} SetTold(p: Setup, calls: seq<Call>, call: Call, rows: seq<Row>)
    requires AllTold(p.policy, calls, rows) && call.SetCall?
    ensures var row := NewRow(call.key, call.blob, call.expire, call.now, p.minFileSize, call.name);
            AllTold(p.policy, calls + [call], Upserted(rows, row))
  {
    var row := NewRow(call.key, call.blob, call.expire, call.now, p.minFileSize, call.name);
    var all := Upserted(rows, row);
    assert (calls + [call])[..|calls|] == calls;
    forall r | r in all
      ensures TimesTold(p.policy, calls + [call], r)
    {
      if r.key != call.key { OtherKeys(p.policy, calls, call, r); }
    }
  }

  lemma {:induction false} RemovalTold(p: Policy, calls: seq<Call>, call: Call, rows: seq<Row>, i: nat)
    requires AllTold(p, calls, rows) && call.GetCall? && i < |rows| && rows[i].key == call.key
    ensures AllTold(p, calls + [call], RemoveAt(rows, i))
  {
    hide LastSet, LastUse, TimesTold;
    RemovalIsAscending(rows, i);
    var after := RemoveAt(rows, i);
    forall j | 0 <= j < |after|
      ensures after[j] in rows && after[j].key != call.key
    { assert after[j] == rows[if j < i then j else j + 1]; }
    FewerTold(p, calls, rows, after);
    forall r | r in after
      ensures TimesTold(p, calls + [call], r)
    { OtherKeys(p, calls, call, r); }
  }

  lemma {:induction false} ReadsTold(p: Policy, calls: seq<Call>, call: Call, rows: seq<Row>, i: nat, row: Row)
    requires AllTold(p, calls, rows) && call.GetCall? && i < |rows| && rows[i].key == call.key
    requires row == if p.LeastRecentlyUsed? && call.now - rows[i].accessTime > ATIME_RESOLUTION
                    then rows[i].(accessTime := call.now) else rows[i]
    ensures AllTold(p, calls + [call], rows[i := row])
  {
    hide LastSet, LastUse, TimesTold;
    var after := rows[i := row];
    forall j | 0 <= j < |after|
      ensures TimesTold(p, calls + [call], after[j])
    {
      if j == i { ReadTold(p, calls, call, rows[i]); } else { OtherKeys(p, calls, call, rows[j]); }
    }
  }

  lemma {:induction false} GetTold(p: Policy, calls: seq<Call>, call: Call, rows: seq<Row>)
    requires AllTold(p, calls, rows) && call.GetCall?
    ensures AllTold(p, calls + [call], AfterGet(p, rows, call.key, call.now))
  {
    hide LastSet, LastUse, TimesTold, RemoveAt, AllTold;
    match Find(rows, call.key)
    case None => MissTold(p, calls, call, rows);
    case Some(i) =>
      if Stale(rows[i].expireTime, call.now) {
        RemovalTold(p, calls, call, rows, i);
      } else {
        var row := if p.LeastRecentlyUsed? && call.now - rows[i].accessTime > ATIME_RESOLUTION
                   then rows[i].(accessTime := call.now) else rows[i];
        ReadsTold(p, calls, call, rows, i, row);
        assert rows[i := rows[i]] == rows;
      }
  }

  lemma {:induction false} MissTold(p: Policy, calls: seq<Call>, call: Call, rows: seq<Row>)
    requires AllTold(p, calls, rows) && call.GetCall?
    requires forall i :: 0 <= i < |rows| ==> rows[i].key != call.key
    ensures AllTold(p, calls + [call], rows)
  {
    hide LastSet, LastUse, TimesTold;
    forall r | r in rows
      ensures TimesTold(p, calls + [call], r)
    { OtherKeys(p, calls, call, r); }
  }

  /** The row read. */
  lemma {:induction false} ReadTold(p: Policy, calls: seq<Call>, call: Call, r: Row)
    requires TimesTold(p, calls, r) && call.GetCall? && call.key == r.key
    ensures TimesTold(p, calls + [call],
                      if p.LeastRecentlyUsed? && call.now - r.accessTime > ATIME_RESOLUTION
                      then r.(accessTime := call.now) else r)
  {
    assert (calls + [call])[..|calls|] == calls;
  }

  lemma {:induction false} FreshInOrder(rows: seq<Row>, cutoff: int)
    requires Ascending(rows)
    ensures Ascending(FreshRows(rows, cutoff)) && forall r :: r in FreshRows(rows, cutoff) ==> r in rows
  {
    if rows != [] {
      FreshInOrder(rows[1..], cutoff);
      var rest := FreshRows(rows[1..], cutoff);
      forall j | 0 <= j < |rest|
        ensures rows[0].rowid < rest[j].rowid
      {
        assert rest[j] in rows[1..];
        var k :| 0 <= k < |rows[1..]| && rows[1..][k] == rest[j];
        assert rows[k + 1] == rest[j];
      }
    }
  }

  /** One call keeps the times told. */
  lemma {:induction false} StepTold(p: Setup, calls: seq<Call>, call: Call, rows: seq<Row>)
    requires AllTold(p.policy, calls, rows)
    ensures AllTold(p.policy, calls + [call], RowsAfter(p, rows, call))
  {
    hide LastSet, LastUse, TimesTold, Upserted, AfterGet, Culled, FreshRows, NewRow;
    match call
    case SetCall(key, blob, expire, now, name) =>
      SetTold(p, calls, call, rows);
      var all := Upserted(rows, NewRow(key, blob, expire, now, p.minFileSize, name));
      CulledAscending(p.policy, all, p.limit);
      FewerTold(p.policy, calls + [call], all, Culled(p.policy, all, p.limit));
    case GetCall(key, now) => GetTold(p.policy, calls, call, rows);
    case DeleteCall(key) =>
      match Find(rows, key) {
        case Some(i) =>
          RemovalIsAscending(rows, i);
          FewerTold(p.policy, calls, rows, RemoveAt(rows, i));
        case None =>
      }
      AsideTold(p.policy, calls, call, AfterDelete(rows, key));
    case ExpireCall(cutoff) =>
      FreshInOrder(rows, cutoff);
      FewerTold(p.policy, calls, rows, FreshRows(rows, cutoff));
      AsideTold(p.policy, calls, call, FreshRows(rows, cutoff));
    case ClearCall =>
  }

  lemma {:induction false} AsideTold(p: Policy, calls: seq<Call>, call: Call, rows: seq<Row>)
    requires AllTold(p, calls, rows) && !call.SetCall? && !call.GetCall?
    ensures AllTold(p, calls + [call], rows)
  {
    hide TimesTold;
    forall r | r in rows
      ensures TimesTold(p, calls + [call], r)
    { OtherKeys(p, calls, call, r); }
  }

  lemma {:induction false} CulledAscending(p: Policy, rows: seq<Row>, limit: Option<int>)
    requires Ascending(rows)
    ensures Ascending(Culled(p, rows, limit)) && forall r :: r in Culled(p, rows, limit) ==> r in rows
  {
    hide Shrunk, Ascending, Total;
    if limit.Some? { ShrunkKeepsNewest(p, rows, limit.value); }
  }

  /** In every run from an empty cache the rows' times are the times of the last calls that used their keys. */
  lemma {:induction false} RunTold(p: Setup, calls: seq<Call>)
    ensures AllTold(p.policy, calls, RowsRun(p, [], calls))
  {
    hide AllTold, RowsAfter;
    if calls == [] {
      NoneTold(p.policy);
    } else {
      RunTold(p, calls[..|calls| - 1]);
      StepTold(p, calls[..|calls| - 1], calls[|calls| - 1], RowsRun(p, [], calls[..|calls| - 1]));
      assert calls[..|calls| - 1] + [calls[|calls| - 1]] == calls;
    }
  }

  lemma {:induction false} NoneTold(p: Policy)
    ensures AllTold(p, [], [])
  {}

  /** The last use that the policy goes by. */
  function Recency(p: Policy, calls: seq<Call>, key: string): Option<int> {
    if p.LeastRecentlyUsed? then LastUse(calls, key) else LastSet(calls, key)
  }

  /** In every run: when a `set` evicts one key and keeps another, the key evicted was not used, as the policy
      counts uses, after the key kept. */
  lemma {:induction false} EvictionFollowsUse(p: Setup, calls: seq<Call>, set_: Call, gone: string, kept: string)
    requires set_.SetCall?
    requires gone in Keys(RowsRun(p, [], calls)) || gone == set_.key
    requires gone !in Keys(RowsRun(p, [], calls + [set_])) && kept in Keys(RowsRun(p, [], calls + [set_]))
    ensures Recency(p.policy, calls + [set_], gone).Some? && Recency(p.policy, calls + [set_], kept).Some?
    ensures Recency(p.policy, calls + [set_], gone).value <= Recency(p.policy, calls + [set_], kept).value
  {
    RunTold(p, calls);
    hide LastSet, LastUse, Upserted, Culled, Ascending, NewRow;
    var rows := RowsRun(p, [], calls);
    assert (calls + [set_])[..|calls|] == calls && (calls + [set_])[|calls|] == set_;
    var row := NewRow(set_.key, set_.blob, set_.expire, set_.now, p.minFileSize, set_.name);
    var all := Upserted(rows, row);
    SetTold(p, calls, set_, rows);
    NewRowKey(set_, p.minFileSize);
    UpsertedKeys(rows, row, gone);
    var left := Culled(p.policy, all, p.limit);
    var i :| 0 <= i < |all| && all[i].key == gone;
    var j :| 0 <= j < |left| && left[j].key == kept;
    assert all[i] !in left;
    EvictedGoBefore(p.policy, all, p.limit, all[i], left[j]);
  }

  lemma {:induction false} NewRowKey(set_: Call, minFileSize: int)
    requires set_.SetCall?
    ensures NewRow(set_.key, set_.blob, set_.expire, set_.now, minFileSize, set_.name).key == set_.key
  {}

  lemma {:induction false} UpsertedKeys(rows: seq<Row>, row: Row, key: string)
    requires key in Keys(rows) || key == row.key
    ensures key in Keys(Upserted(rows, row))
  {
    var all := Upserted(rows, row);
    if key == row.key {
      var i := match Find(rows, row.key) case Some(i) => i case None => |rows|;
      assert all[i].key == key;
    } else {
      var i :| 0 <= i < |rows| && rows[i].key == key;
      assert all[i].key == key;
    }
  }

  /** A `set` gives its row the time it read, both times, and the value's size; a value of `minFileSize` bytes or more
      goes to the side file, a shorter one into the row; and the row goes stale only after a time to live that is
      given and not zero. */
  lemma {:induction false} RowSet(p: Setup, rows: seq<Row>, set_: Call, r: Row)
    requires set_.SetCall? && r in RowsAfter(p, rows, set_) && r.key == set_.key && Ascending(rows) && KeysDiffer(rows)
    ensures r.storeTime == r.accessTime == set_.now && r.size == |set_.blob|
    ensures if |set_.blob| < p.minFileSize then r.filename.None? && r.value == set_.blob
            else r.filename == Some(set_.name)
    ensures r.expireTime == if set_.expire == None || set_.expire == Some(0) then None
                            else Some(set_.now + set_.expire.value)
  {
    hide Culled;
    var all := Upserted(rows, NewRow(set_.key, set_.blob, set_.expire, set_.now, p.minFileSize, set_.name));
    UpsertedInOrder(rows, NewRow(set_.key, set_.blob, set_.expire, set_.now, p.minFileSize, set_.name));
    CulledAscending(p.policy, all, p.limit);
  }

  lemma {:induction false} UpsertedInOrder(rows: seq<Row>, row: Row)
    requires Ascending(rows)
    ensures Ascending(Upserted(rows, row))
  {}
}
