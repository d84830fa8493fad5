/** Rows with their side files, and the mapping they stand for. */
module SqliteFiles {
  import opened Bytes
  import opened Options
  import opened SqliteRows

  /** What a key maps to: the pickled value and when it goes stale. */
  datatype Slot = Slot(blob: bytes, expireTime: Option<int>)

  function BlobOf(r: Row, files: map<string, bytes>): bytes {
    match r.filename
    case Some(name) => if name in files then files[name] else []
    case None => r.value
  }

  function SlotOf(r: Row, files: map<string, bytes>): Slot {
    Slot(BlobOf(r, files), r.expireTime)
  }

  predicate Stale(expireTime: Option<int>, now: int) {
    expireTime.Some? && expireTime.value < now
  }

  /** The index of the first row with `p`. */
  function FirstWhere(rows: seq<Row>, p: Row -> bool): (r: Option<nat>)
    ensures r.Some? ==> r.value < |rows| && p(rows[r.value])
    ensures r.None? ==> forall i :: 0 <= i < |rows| ==> !p(rows[i])
  {
    if rows == [] then None
    else if p(rows[0]) then Some(0)
    else match FirstWhere(rows[1..], p)
      case Some(i) => Some(i + 1)
      case None => assert forall i :: 1 <= i < |rows| ==> rows[i] == rows[1..][i - 1]; None
  }

  /** The index of the row of `key`. */
  function Find(rows: seq<Row>, key: string): (r: Option<nat>)
    ensures r.Some? ==> r.value < |rows| && rows[r.value].key == key
    ensures r.None? ==> forall i :: 0 <= i < |rows| ==> rows[i].key != key
  {
    FirstWhere(rows, (r: Row) => r.key == key)
  }

  function Keys(rows: seq<Row>): set<string> {
    set i | 0 <= i < |rows| :: rows[i].key
  }

  function View(rows: seq<Row>, files: map<string, bytes>): map<string, Slot> {
    map key | key in Keys(rows) && Find(rows, key).Some? :: SlotOf(rows[Find(rows, key).value], files)
  }

  /** The side files are exactly the ones the rows name, each row its own, and every row gives its value's
      true size. */
  predicate FilesMatch(rows: seq<Row>, files: map<string, bytes>) {
    && (forall i :: 0 <= i < |rows| && rows[i].filename.Some? ==> rows[i].filename.value in files)
    && (forall i, j :: 0 <= i < j < |rows| && rows[i].filename.Some? ==> rows[i].filename != rows[j].filename)
    && (forall name :: name in files ==> Named(rows, name))
    && forall i :: 0 <= i < |rows| ==> |BlobOf(rows[i], files)| == rows[i].size
  }

  predicate Named(rows: seq<Row>, name: string) {
    exists i :: 0 <= i < |rows| && rows[i].filename == Some(name)
  }

  predicate Sound(rows: seq<Row>, files: map<string, bytes>) {
    Ascending(rows) && KeysDiffer(rows) && FilesMatch(rows, files)
  }

  /** Unlinking a row's side file, if it has one. */
  function Unlinked(files: map<string, bytes>, name: Option<string>): map<string, bytes> {
    if name.Some? then files - {name.value} else files
  }

  lemma {:induction false} ViewAt(rows: seq<Row>, files: map<string, bytes>, i: nat)
    requires KeysDiffer(rows) && i < |rows|
    ensures rows[i].key in View(rows, files) && View(rows, files)[rows[i].key] == SlotOf(rows[i], files)
  {
    var k := Find(rows, rows[i].key).value;
    assert k < |rows| && rows[k].key == rows[i].key;
    assert forall a, b :: 0 <= a < b < |rows| ==> rows[a].key != rows[b].key;
  }

  lemma {:induction false} InView(rows: seq<Row>, files: map<string, bytes>, key: string) returns (i: nat)
    requires key in View(rows, files)
    ensures i < |rows| && rows[i].key == key && View(rows, files)[key] == SlotOf(rows[i], files)
  {
    i := Find(rows, key).value;
  }

  /** As many entries as rows. */
  lemma {:induction false} ViewSize(rows: seq<Row>, files: map<string, bytes>)
    requires KeysDiffer(rows)
    ensures |View(rows, files)| == |rows|
  {
    assert View(rows, files).Keys == Keys(rows) by {
      forall key | key in Keys(rows) ensures key in View(rows, files) {
        var i :| 0 <= i < |rows| && rows[i].key == key;
        ViewAt(rows, files, i);
      }
    }
    KeyCount(rows);
  }

  lemma {:induction false} KeyCount(rows: seq<Row>)
    requires KeysDiffer(rows)
    ensures |Keys(rows)| == |rows|
  {
    if rows == [] { assert Keys(rows) == {}; }
    else {
      var n := |rows| - 1;
      KeyCount(rows[..n]);
      assert Keys(rows) == Keys(rows[..n]) + {rows[n].key};
    }
  }

  lemma {:induction false} RemovalIsSound(rows: seq<Row>, files: map<string, bytes>, i: nat)
    requires Sound(rows, files) && i < |rows|
    ensures Sound(RemoveAt(rows, i), Unlinked(files, rows[i].filename))
    ensures View(RemoveAt(rows, i), Unlinked(files, rows[i].filename)) == View(rows, files) - {rows[i].key}
  {
    RemovalMatches(rows, files, i);
    RemovedView(rows, files, i);
  }

  lemma {:induction false} RemovedView(rows: seq<Row>, files: map<string, bytes>, i: nat)
    requires Sound(rows, files) && i < |rows|
    ensures Ascending(RemoveAt(rows, i)) && KeysDiffer(RemoveAt(rows, i))
    ensures View(RemoveAt(rows, i), Unlinked(files, rows[i].filename)) == View(rows, files) - {rows[i].key}
  {
    hide View, RemoveAt, BlobOf, Unlinked, FilesMatch;
    var rest, left := RemoveAt(rows, i), Unlinked(files, rows[i].filename);
    var before, after := View(rows, files), View(rest, left);
    forall key | key in after ensures key in before && key != rows[i].key && after[key] == before[key] {
      var j := InView(rest, left, key);
      var k := if j < i then j else j + 1;
      assert rest[j] == rows[k];
      ViewAt(rows, files, k);
      SameBlob(rows, files, i, k);
    }
    forall key | key in before && key != rows[i].key ensures key in after {
      var k := InView(rows, files, key);
      ViewAt(rest, left, if k < i then k else k - 1);
    }
  }

  lemma {:induction false} SameBlob(rows: seq<Row>, files: map<string, bytes>, i: nat, k: nat)
    requires FilesMatch(rows, files) && i < |rows| && k < |rows| && i != k
    ensures BlobOf(rows[k], Unlinked(files, rows[i].filename)) == BlobOf(rows[k], files)
  {
    if rows[k].filename.Some? {
      if i < k { assert rows[i].filename != rows[k].filename; } else { assert rows[k].filename != rows[i].filename; }
    }
  }

  lemma {:induction false} NamesAfterRemoval(rows: seq<Row>, files: map<string, bytes>, i: nat, name: string)
    requires FilesMatch(rows, files) && i < |rows| && name in Unlinked(files, rows[i].filename)
    ensures Named(RemoveAt(rows, i), name)
  {
    hide BlobOf, RemoveAt;
    var k :| 0 <= k < |rows| && rows[k].filename == Some(name);
    assert k != i;
    assert RemoveAt(rows, i)[if k < i then k else k - 1].filename == Some(name);
  }

  /** What another row reads when row `i` goes. */
  lemma {:induction false} KeptReads(rows: seq<Row>, files: map<string, bytes>, i: nat, k: nat)
    requires FilesMatch(rows, files) && i < |rows| && k < |rows| && k != i
    ensures rows[k].filename.Some? ==> rows[k].filename.value in Unlinked(files, rows[i].filename)
    ensures |BlobOf(rows[k], Unlinked(files, rows[i].filename))| == rows[k].size
  {
    SameBlob(rows, files, i, k);
    if i < k { assert rows[i].filename.Some? ==> rows[i].filename != rows[k].filename; }
    else { assert rows[k].filename.Some? ==> rows[k].filename != rows[i].filename; }
  }

  lemma {:induction false} RemovalMatches(rows: seq<Row>, files: map<string, bytes>, i: nat)
    requires FilesMatch(rows, files) && i < |rows|
    ensures FilesMatch(RemoveAt(rows, i), Unlinked(files, rows[i].filename))
  {
    var rest, left := RemoveAt(rows, i), Unlinked(files, rows[i].filename);
    hide RemoveAt, Unlinked, BlobOf, Named;
    forall j | 0 <= j < |rest|
      ensures rest[j].filename.Some? ==> rest[j].filename.value in left
      ensures |BlobOf(rest[j], left)| == rest[j].size
    { KeptReads(rows, files, i, if j < i then j else j + 1); }
    forall name | name in left ensures Named(rest, name) { NamesAfterRemoval(rows, files, i, name); }
  }

  /** A new row, with its side file if it spilled. */
  function Spilled(files: map<string, bytes>, name: Option<string>, blob: bytes): map<string, bytes> {
    if name.Some? then files[name.value := blob] else files
  }

  lemma {:induction false} SpillKeepsBlob(rows: seq<Row>, files: map<string, bytes>, name: Option<string>, blob: bytes,
                                          k: nat)
    requires FilesMatch(rows, files) && k < |rows| && (name.Some? ==> name.value !in files)
    ensures BlobOf(rows[k], Spilled(files, name, blob)) == BlobOf(rows[k], files)
    ensures name.Some? ==> rows[k].filename != name
  {
  }

  lemma {:induction false} NamesAfterInsert(rows: seq<Row>, files: map<string, bytes>, row: Row, blob: bytes,
                                            name: string)
    requires FilesMatch(rows, files) && name in Spilled(files, row.filename, blob)
    ensures Named(rows + [row], name)
  {
    if name in files {
      var k :| 0 <= k < |rows| && rows[k].filename == Some(name);
      assert (rows + [row])[k].filename == Some(name);
    } else {
      assert (rows + [row])[|rows|].filename == Some(name);
    }
  }

  lemma {:induction false} InsertIsSound(rows: seq<Row>, files: map<string, bytes>, row: Row, blob: bytes)
    requires Sound(rows, files)
    requires forall i :: 0 <= i < |rows| ==> rows[i].rowid < row.rowid && rows[i].key != row.key
    requires row.filename.Some? ==> row.filename.value !in files
    requires row.filename.None? ==> row.value == blob
    requires row.size == |blob|
    ensures Sound(rows + [row], Spilled(files, row.filename, blob))
    ensures View(rows + [row], Spilled(files, row.filename, blob))
            == View(rows, files)[row.key := Slot(blob, row.expireTime)]
  {
    var all, have := rows + [row], Spilled(files, row.filename, blob);
    forall k | 0 <= k < |rows|
      ensures BlobOf(rows[k], have) == BlobOf(rows[k], files)
              && (row.filename.Some? ==> rows[k].filename != row.filename)
    { SpillKeepsBlob(rows, files, row.filename, blob, k); }
    assert all[|rows|] == row && BlobOf(row, have) == blob;
    assert forall k :: 0 <= k < |rows| ==> all[k] == rows[k];
    forall name | name in have ensures Named(all, name) { NamesAfterInsert(rows, files, row, blob, name); }
    hide View, Keys, Named, BlobOf;
    InsertedView(rows, files, row, have);
  }

  lemma {:induction false} InsertedView(rows: seq<Row>, files: map<string, bytes>, row: Row, have: map<string, bytes>)
    requires KeysDiffer(rows) && forall i :: 0 <= i < |rows| ==> rows[i].key != row.key
    requires forall k :: 0 <= k < |rows| ==> BlobOf(rows[k], have) == BlobOf(rows[k], files)
    ensures KeysDiffer(rows + [row])
    ensures View(rows + [row], have) == View(rows, files)[row.key := SlotOf(row, have)]
  {
    hide View, BlobOf;
    var all := rows + [row];
    var before, after := View(rows, files), View(all, have);
    forall key | key in after ensures key == row.key || key in before {
      var j := InView(all, have, key);
      if j < |rows| { ViewAt(rows, files, j); }
    }
    forall key | key in before ensures key in after && key != row.key && after[key] == before[key] {
      var j := InView(rows, files, key);
      ViewAt(all, have, j);
      assert all[j] == rows[j];
    }
    ViewAt(all, have, |rows|);
  }

  lemma {:induction false} UpdateIsSound(rows: seq<Row>, files: map<string, bytes>, i: nat, row: Row, blob: bytes)
    requires Sound(rows, files) && i < |rows|
    requires row.rowid == rows[i].rowid && row.key == rows[i].key && row.size == |blob|
    requires row.filename.Some? ==> row.filename.value !in files
    requires row.filename.None? ==> row.value == blob
    ensures var have := Unlinked(Spilled(files, row.filename, blob), rows[i].filename);
      && Sound(rows[i := row], have)
      && View(rows[i := row], have) == View(rows, files)[row.key := Slot(blob, row.expireTime)]
  {
    var have := Unlinked(Spilled(files, row.filename, blob), rows[i].filename);
    forall k | 0 <= k < |rows| && k != i ensures Undisturbed(rows, files, i, row, blob, k) {
      OthersUndisturbed(rows, files, i, row, blob, k);
    }
    SpillKeepsBlob(rows, files, row.filename, blob, i);
    UpdateMatches(rows, files, i, row, blob);
    hide FilesMatch, View;
    UpdatedView(rows, files, i, row, have);
  }

  /** What another row reads, and its file name, when row `i` is replaced. */
  predicate Undisturbed(rows: seq<Row>, files: map<string, bytes>, i: nat, row: Row, blob: bytes, k: nat)
    requires i < |rows| && k < |rows|
  {
    var have := Unlinked(Spilled(files, row.filename, blob), rows[i].filename);
    && BlobOf(rows[k], have) == BlobOf(rows[k], files)
    && (row.filename.Some? ==> rows[k].filename != row.filename)
    && (rows[k].filename.Some? ==> rows[k].filename.value in have)
  }

  lemma {:induction false} OthersUndisturbed(rows: seq<Row>, files: map<string, bytes>, i: nat, row: Row, blob: bytes,
                                             k: nat)
    requires FilesMatch(rows, files) && i < |rows| && k < |rows| && k != i
    requires row.filename.Some? ==> row.filename.value !in files
    ensures Undisturbed(rows, files, i, row, blob, k)
  {
    SpillKeepsBlob(rows, files, row.filename, blob, k);
    SameBlob(rows, files, i, k);
    if i < k { assert rows[i].filename.Some? ==> rows[i].filename != rows[k].filename; }
    else { assert rows[k].filename.Some? ==> rows[k].filename != rows[i].filename; }
  }

  lemma {:induction false} NamesAfterUpdate(rows: seq<Row>, files: map<string, bytes>, i: nat, row: Row, blob: bytes,
                                            name: string)
    requires FilesMatch(rows, files) && i < |rows|
    requires name in Unlinked(Spilled(files, row.filename, blob), rows[i].filename)
    ensures Named(rows[i := row], name)
  {
    var all := rows[i := row];
    if row.filename == Some(name) { assert all[i].filename == Some(name); }
    else {
      var k :| 0 <= k < |rows| && rows[k].filename == Some(name);
      assert k != i && all[k].filename == Some(name);
    }
  }

  lemma {:induction false} NewRowReads(rows: seq<Row>, files: map<string, bytes>, i: nat, row: Row, blob: bytes)
    requires FilesMatch(rows, files) && i < |rows|
    requires row.filename.Some? ==> row.filename.value !in files
    requires row.filename.None? ==> row.value == blob
    ensures var have := Unlinked(Spilled(files, row.filename, blob), rows[i].filename);
      BlobOf(row, have) == blob && (row.filename.Some? ==> row.filename.value in have)
  {
    SpillKeepsBlob(rows, files, row.filename, blob, i);
  }

  lemma {:induction false} UpdateMatches(rows: seq<Row>, files: map<string, bytes>, i: nat, row: Row, blob: bytes)
    requires FilesMatch(rows, files) && i < |rows| && row.size == |blob|
    requires row.filename.Some? ==> row.filename.value !in files
    requires row.filename.None? ==> row.value == blob
    requires forall k :: 0 <= k < |rows| && k != i ==> Undisturbed(rows, files, i, row, blob, k)
    ensures FilesMatch(rows[i := row], Unlinked(Spilled(files, row.filename, blob), rows[i].filename))
    ensures BlobOf(row, Unlinked(Spilled(files, row.filename, blob), rows[i].filename)) == blob
  {
    var all, have := rows[i := row], Unlinked(Spilled(files, row.filename, blob), rows[i].filename);
    NewRowReads(rows, files, i, row, blob);
    forall name | name in have ensures Named(all, name) { NamesAfterUpdate(rows, files, i, row, blob, name); }
    hide Named, BlobOf, Unlinked, Spilled;
    assert forall k :: 0 <= k < |rows| && k != i ==> all[k] == rows[k] && Undisturbed(rows, files, i, row, blob, k);
  }

  /** Replacing row `i`, and nothing the others read, changes one entry. */
  lemma {:induction false} UpdatedView(rows: seq<Row>, files: map<string, bytes>, i: nat, row: Row,
                                       have: map<string, bytes>)
    requires KeysDiffer(rows) && i < |rows| && row.key == rows[i].key
    requires forall k :: 0 <= k < |rows| && k != i ==> BlobOf(rows[k], have) == BlobOf(rows[k], files)
    ensures KeysDiffer(rows[i := row])
    ensures View(rows[i := row], have) == View(rows, files)[row.key := SlotOf(row, have)]
  {
    hide View, BlobOf;
    var all := rows[i := row];
    var before, after := View(rows, files), View(all, have);
    forall key | key in after ensures key == row.key || key in before {
      var j := InView(all, have, key);
      ViewAt(rows, files, j);
    }
    forall key | key in before ensures key in after && (key != row.key ==> after[key] == before[key]) {
      var j := InView(rows, files, key);
      ViewAt(all, have, j);
    }
    ViewAt(all, have, i);
  }

  /** Every entry of `some` is an entry of `all`. */
  predicate Within(some: map<string, Slot>, all: map<string, Slot>) {
    forall key :: key in some ==> key in all && some[key] == all[key]
  }

  /** What a lookup gives at `now`. */
  function Answer(view: map<string, Slot>, key: string, now: int): Option<bytes> {
    if key in view && !Stale(view[key].expireTime, now) then Some(view[key].blob) else None
  }
}
