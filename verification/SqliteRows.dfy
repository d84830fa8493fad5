/** The rows of the SQLite cache's table, their eviction order and what a cull leaves of them. */
module SqliteRows {
  import opened Bytes
  import opened Options

  datatype Policy = LeastRecentlyStored | LeastRecentlyUsed

  /** A row; its value is inline or in the named side file. */
  datatype Row = Row(
    rowid: nat,
    key: string,
    storeTime: int,
    accessTime: int,
    expireTime: Option<int>,
    size: nat,
    filename: Option<string>,
    value: bytes)

  function Age(p: Policy, r: Row): int {
    match p
    case LeastRecentlyStored => r.storeTime
    case LeastRecentlyUsed => r.accessTime
  }

  /** Is `r` evicted before `s`?  Equal times go by rowid, the order an SQLite index lists them in. */
  predicate Older(p: Policy, r: Row, s: Row) {
    Age(p, r) < Age(p, s) || (Age(p, r) == Age(p, s) && r.rowid < s.rowid)
  }

  /** Rows are listed by rowid; neither rowids nor keys repeat. */
  predicate Ascending(rows: seq<Row>) {
    forall i, j :: 0 <= i < j < |rows| ==> rows[i].rowid < rows[j].rowid
  }

  predicate KeysDiffer(rows: seq<Row>) {
    forall i, j :: 0 <= i < j < |rows| ==> rows[i].key != rows[j].key
  }

  function Total(rows: seq<Row>): nat {
    if rows == [] then 0 else rows[0].size + Total(rows[1..])
  }

  function RemoveAt(rows: seq<Row>, i: nat): (r: seq<Row>)
    requires i < |rows|
    ensures |r| == |rows| - 1
    ensures forall j :: 0 <= j < |r| ==> r[j] == rows[if j < i then j else j + 1]
  {
    rows[..i] + rows[i + 1..]
  }

  lemma {:induction false} TotalWithout(rows: seq<Row>, i: nat)
    requires i < |rows|
    ensures Total(RemoveAt(rows, i)) == Total(rows) - rows[i].size
  {
    if i > 0 {
      TotalWithout(rows[1..], i - 1);
      assert RemoveAt(rows, i)[1..] == RemoveAt(rows[1..], i - 1);
    } else {
      assert RemoveAt(rows, i) == rows[1..];
    }
  }

  lemma {:induction false} TotalUpdated(rows: seq<Row>, i: nat, row: Row)
    requires i < |rows|
    ensures Total(rows[i := row]) == Total(rows) - rows[i].size + row.size
  {
    if i > 0 {
      TotalUpdated(rows[1..], i - 1, row);
      assert rows[i := row][1..] == rows[1..][i - 1 := row];
    } else {
      assert rows[i := row][1..] == rows[1..];
    }
  }

  lemma {:induction false} TotalAppended(rows: seq<Row>, row: Row)
    ensures Total(rows + [row]) == Total(rows) + row.size
  {
    if rows != [] {
      TotalAppended(rows[1..], row);
      assert (rows + [row])[1..] == rows[1..] + [row];
    } else {
      assert rows + [row] == [row];
    }
  }

  // ----- eviction

  function OldestAt(p: Policy, rows: seq<Row>): (m: nat)
    requires rows != []
    ensures m < |rows|
    ensures forall j :: 0 <= j < |rows| ==> !Older(p, rows[j], rows[m])
  {
    if |rows| == 1 then 0
    else
      var m := 1 + OldestAt(p, rows[1..]);
      assert forall j :: 1 <= j < |rows| ==> rows[j] == rows[1..][j - 1];
      if Older(p, rows[m], rows[0]) then m else 0
  }

  function WithoutOldest(p: Policy, rows: seq<Row>): seq<Row>
    requires rows != []
  {
    RemoveAt(rows, OldestAt(p, rows))
  }

  /** The rows in eviction order, as the cull's SELECT lists them. */
  function Aged(p: Policy, rows: seq<Row>): (r: seq<Row>)
    ensures |r| == |rows|
    decreases |rows|
  {
    if rows == [] then [] else [rows[OldestAt(p, rows)]] + Aged(p, WithoutOldest(p, rows))
  }

  predicate OverLowWater(total: int, limit: int) {
    10 * total > 9 * limit
  }

  /** What is left after evicting the oldest row while the total is over 90% of the limit. */
  function Shrunk(p: Policy, rows: seq<Row>, limit: int): seq<Row>
    decreases |rows|
  {
    if rows == [] || !OverLowWater(Total(rows), limit) then rows else Shrunk(p, WithoutOldest(p, rows), limit)
  }

  function Culled(p: Policy, rows: seq<Row>, limit: Option<int>): seq<Row> {
    if limit.None? || Total(rows) <= limit.value then rows else Shrunk(p, rows, limit.value)
  }

  /** The rows after evicting the `k` oldest. */
  function Evicted(p: Policy, rows: seq<Row>, k: nat): seq<Row>
    requires k <= |rows|
    decreases k
  {
    if k == 0 then rows else Evicted(p, WithoutOldest(p, rows), k - 1)
  }

  function Oldest(p: Policy, rows: seq<Row>): (r: Row)
    requires rows != []
    ensures r in rows
  {
    rows[OldestAt(p, rows)]
  }

  lemma {:induction false} OlderOrYounger(p: Policy, r: Row, s: Row)
    requires r.rowid != s.rowid && !Older(p, s, r)
    ensures Older(p, r, s)
  {}

  lemma {:induction false} RemovalIsAscending(rows: seq<Row>, m: nat)
    requires Ascending(rows) && m < |rows|
    ensures Ascending(RemoveAt(rows, m))
  {}

  /** Evicting the oldest row leaves just the others, all newer. */
  lemma {:induction false} OldestGoes(p: Policy, rows: seq<Row>)
    requires Ascending(rows) && rows != []
    ensures Ascending(WithoutOldest(p, rows))
    ensures forall r :: r in WithoutOldest(p, rows) ==> r in rows && Older(p, Oldest(p, rows), r)
    ensures forall r :: r in rows ==> r == Oldest(p, rows) || r in WithoutOldest(p, rows)
  {
    hide Older, OldestAt, RemoveAt;
    var m := OldestAt(p, rows);
    var rest := RemoveAt(rows, m);
    RemovalIsAscending(rows, m);
    forall r | r in rest ensures r in rows && Older(p, rows[m], r) {
      var j :| 0 <= j < |rest| && rest[j] == r;
      var i := if j < m then j else j + 1;
      assert rows[i] == r && rows[i].rowid != rows[m].rowid;
      OlderOrYounger(p, rows[m], rows[i]);
    }
    forall r | r in rows ensures r == rows[m] || r in rest {
      var i :| 0 <= i < |rows| && rows[i] == r;
      if i != m { assert r == rest[if i < m then i else i - 1]; }
    }
  }

  /** `Aged` lists the same rows, each older than those behind it. */
  lemma {:induction false} AgedIsSorted(p: Policy, rows: seq<Row>)
    requires Ascending(rows)
    ensures forall r :: r in Aged(p, rows) <==> r in rows
    ensures forall i, j :: 0 <= i < j < |rows| ==> Older(p, Aged(p, rows)[i], Aged(p, rows)[j])
    decreases |rows|
  {
    hide OldestAt, Older, RemoveAt, WithoutOldest, Ascending;
    if rows != [] {
      var rest := WithoutOldest(p, rows);
      OldestGoes(p, rows);
      RestIsShorter(p, rows);
      AgedIsSorted(p, rest);
      var aged := Aged(p, rows);
      assert aged[0] == Oldest(p, rows) && aged[1..] == Aged(p, rest);
      forall r ensures r in aged <==> r in rows {
        assert r in aged <==> r == aged[0] || r in aged[1..];
      }
      forall j | 1 <= j < |rows| ensures Older(p, aged[0], aged[j]) && aged[j] == Aged(p, rest)[j - 1] {
        assert aged[j] in Aged(p, rest);
      }
    }
  }

  lemma {:induction false} RestIsShorter(p: Policy, rows: seq<Row>)
    requires rows != []
    ensures |WithoutOldest(p, rows)| == |rows| - 1
  {
  }

  /** The `k` rows evicted are the `k` first in eviction order. */
  lemma {:induction false} EvictedAreFirst(p: Policy, rows: seq<Row>, k: nat)
    requires k <= |rows|
    ensures Aged(p, Evicted(p, rows, k)) == Aged(p, rows)[k..]
    decreases k
  {
    hide OldestAt, RemoveAt, WithoutOldest;
    if k > 0 {
      RestIsShorter(p, rows);
      EvictedAreFirst(p, WithoutOldest(p, rows), k - 1);
      assert Aged(p, rows)[k..] == Aged(p, WithoutOldest(p, rows))[k - 1..];
    }
  }

  /** Fewer evictions leave at least as much. */
  lemma {:induction false} EvictedTotals(p: Policy, rows: seq<Row>, k: nat, n: nat)
    requires k <= n <= |rows|
    ensures Total(Evicted(p, rows, n)) <= Total(Evicted(p, rows, k))
    decreases n
  {
    if k > 0 { EvictedTotals(p, WithoutOldest(p, rows), k - 1, n - 1); }
    else if n > 0 {
      TotalWithout(rows, OldestAt(p, rows));
      EvictedTotals(p, WithoutOldest(p, rows), 0, n - 1);
    }
  }

  /** A cull evicts the fewest oldest rows that bring the total to 90% of the limit, or all. */
  lemma {:induction false} ShrunkIsShortest(p: Policy, rows: seq<Row>, limit: int) returns (k: nat)
    ensures k <= |rows| && Shrunk(p, rows, limit) == Evicted(p, rows, k)
    ensures k == |rows| || !OverLowWater(Total(Evicted(p, rows, k)), limit)
    ensures forall n :: 0 <= n < k ==> OverLowWater(Total(Evicted(p, rows, n)), limit)
    decreases |rows|
  {
    if rows == [] || !OverLowWater(Total(rows), limit) { k := 0; }
    else {
      var rest := WithoutOldest(p, rows);
      var n := ShrunkIsShortest(p, rest, limit);
      k := n + 1;
      forall i | 0 <= i < k ensures OverLowWater(Total(Evicted(p, rows, i)), limit) {
        if i > 0 { assert Evicted(p, rows, i) == Evicted(p, rest, i - 1); }
      }
    }
  }

  /** The rows kept are in table order, and every row evicted is older than every row kept. */
  lemma {:induction false} ShrunkKeepsNewest(p: Policy, rows: seq<Row>, limit: int)
    requires Ascending(rows)
    ensures Ascending(Shrunk(p, rows, limit))
    ensures forall r :: r in Shrunk(p, rows, limit) ==> r in rows
    ensures forall r, s :: r in rows && r !in Shrunk(p, rows, limit) && s in Shrunk(p, rows, limit) ==> Older(p, r, s)
    decreases |rows|
  {
    hide OldestAt, Older, RemoveAt, WithoutOldest, Ascending, Oldest;
    if rows != [] && OverLowWater(Total(rows), limit) {
      OldestGoes(p, rows);
      RestIsShorter(p, rows);
      ShrunkKeepsNewest(p, WithoutOldest(p, rows), limit);
    }
  }

  /** Whatever the limit, a cull ends within it, unless the limit is negative, when it empties the table. */
  lemma {:induction false} CulledIsWithin(p: Policy, rows: seq<Row>, limit: int)
    ensures Total(Culled(p, rows, Some(limit))) <= limit || (limit < 0 && Culled(p, rows, Some(limit)) == [])
  {
    var k := ShrunkIsShortest(p, rows, limit);
    EmptyAtEnd(p, rows);
  }

  /** The rows that are not evicted before `row`: `row` itself and what stays after it. */
  function NotOlder(p: Policy, rows: seq<Row>, row: Row): seq<Row> {
    if rows == [] then []
    else (if Older(p, rows[0], row) then [] else [rows[0]]) + NotOlder(p, rows[1..], row)
  }

  lemma {:induction false} NotOlderTotal(p: Policy, rows: seq<Row>, row: Row)
    ensures Total(NotOlder(p, rows, row)) <= Total(rows)
  {
    if rows != [] {
      NotOlderTotal(p, rows[1..], row);
      var rest := NotOlder(p, rows[1..], row);
      if !Older(p, rows[0], row) { assert ([rows[0]] + rest)[1..] == rest; } else { assert [] + rest == rest; }
    }
  }

  lemma {:induction false} NoneOlder(p: Policy, rows: seq<Row>, row: Row)
    requires forall r :: r in rows ==> !Older(p, r, row)
    ensures NotOlder(p, rows, row) == rows
  {
    if rows != [] { NoneOlder(p, rows[1..], row); }
  }

  lemma {:induction false} OlderGoesUnseen(p: Policy, rows: seq<Row>, row: Row, i: nat)
    requires i < |rows| && Older(p, rows[i], row)
    ensures NotOlder(p, RemoveAt(rows, i), row) == NotOlder(p, rows, row)
  {
    if i > 0 {
      OlderGoesUnseen(p, rows[1..], row, i - 1);
      assert RemoveAt(rows, i)[1..] == RemoveAt(rows[1..], i - 1) && RemoveAt(rows, i)[0] == rows[0];
    } else {
      assert RemoveAt(rows, 0) == rows[1..];
    }
  }

  /** Evicting from the old end reaches a row exactly when it and the rows that stay after it are over 90%
      of the limit. */
  lemma {:induction false} ShrinkReaches(p: Policy, rows: seq<Row>, row: Row, limit: int)
    requires Ascending(rows) && row in rows
    ensures row in Shrunk(p, rows, limit) <==> !OverLowWater(Total(NotOlder(p, rows, row)), limit)
    decreases |rows|
  {
    hide OldestAt, RemoveAt, WithoutOldest, Ascending, NotOlder;
    NotOlderTotal(p, rows, row);
    if OverLowWater(Total(rows), limit) {
      var rest := WithoutOldest(p, rows);
      OldestGoes(p, rows);
      RestIsShorter(p, rows);
      if row == Oldest(p, rows) {
        NoneOlder(p, rows, row);
        ShrunkKeepsNewest(p, rest, limit);
      } else {
        ShrinkReaches(p, rest, row, limit);
        OldestUnseen(p, rows, row);
      }
    }
  }

  lemma {:induction false} OldestUnseen(p: Policy, rows: seq<Row>, row: Row)
    requires rows != [] && Older(p, Oldest(p, rows), row)
    ensures NotOlder(p, WithoutOldest(p, rows), row) == NotOlder(p, rows, row)
  {
    OlderGoesUnseen(p, rows, row, OldestAt(p, rows));
  }

  /** Any row, whatever its times, outlives a cull if and only if nothing had to go, or it and all the rows
      not older than it fit in 90% of the limit. */
  lemma {:induction false} SurvivesExactly(p: Policy, rows: seq<Row>, row: Row, limit: int)
    requires Ascending(rows) && row in rows
    ensures row in Culled(p, rows, Some(limit)) <==>
              Total(rows) <= limit || !OverLowWater(Total(NotOlder(p, rows, row)), limit)
  {
    ShrinkReaches(p, rows, row, limit);
  }

  lemma {:induction false} OnlyNewest(p: Policy, rows: seq<Row>, row: Row)
    requires Ascending(rows)
    requires forall r :: r in rows && r != row ==> Older(p, r, row)
    ensures Total(NotOlder(p, rows, row)) == if row in rows then row.size else 0
  {
    if rows != [] {
      var rest := rows[1..];
      assert forall r :: r in rest ==> r in rows;
      assert forall j :: 0 <= j < |rest| ==> rest[j] == rows[j + 1] && rows[0].rowid < rest[j].rowid;
      OnlyNewest(p, rest, row);
      if rows[0] == row {
        assert row !in rest;
        assert ([row] + NotOlder(p, rest, row))[1..] == NotOlder(p, rest, row);
      } else {
        assert row in rows <==> row in rest;
        assert [] + NotOlder(p, rest, row) == NotOlder(p, rest, row);
      }
    }
  }

  /** The strictly newest row outlives a cull exactly when nothing had to go or it fits in 90% of the limit
      by itself. */
  lemma {:induction false} NewestSurvives(p: Policy, rows: seq<Row>, row: Row, limit: int)
    requires Ascending(rows) && row in rows
    requires forall r :: r in rows && r != row ==> Older(p, r, row)
    ensures row in Culled(p, rows, Some(limit)) <==> Total(rows) <= limit || !OverLowWater(row.size, limit)
  {
    SurvivesExactly(p, rows, row, limit);
    OnlyNewest(p, rows, row);
  }

  lemma {:induction false} EmptyAtEnd(p: Policy, rows: seq<Row>)
    ensures Evicted(p, rows, |rows|) == []
    decreases |rows|
  {
    if rows != [] { EmptyAtEnd(p, WithoutOldest(p, rows)); }
  }
}
