/** Whole runs of the SQLite cache, answered like a dictionary whose entries may have been evicted. */
module SqliteRuns {
  import opened Bytes
  import opened Options
  import opened Expiry
  import opened SqliteRows
  import opened SqliteFiles
  import opened SqliteCaches

  /** A call, with the clock reading it takes and, for a `set`, the fresh file name it would spill to. */
  datatype Call =
    | SetCall(key: string, blob: bytes, expire: Option<int>, now: int, name: string)
    | GetCall(key: string, now: int)
    | DeleteCall(key: string)
    | ExpireCall(cutoff: int)
    | ClearCall

  datatype Reply = Done | Found(blob: Option<bytes>) | Removed(existed: bool) | Dropped(count: int)

  /** A dictionary that drops a stale entry when it is read or swept. */
  function DictAfter(m: map<string, Slot>, call: Call): map<string, Slot> {
    match call
    case SetCall(key, blob, expire, now, _) => m[key := Slot(blob, ExpiryTime(expire, now))]
    case GetCall(key, now) => if key in m && Stale(m[key].expireTime, now) then m - {key} else m
    case DeleteCall(key) => m - {key}
    case ExpireCall(cutoff) => m - StaleKeys(m, cutoff)
    case ClearCall => map[]
  }

  function DictReply(m: map<string, Slot>, call: Call): Reply {
    match call
    case SetCall(_, _, _, _, _) => Done
    case GetCall(key, now) => Found(Answer(m, key, now))
    case DeleteCall(key) => Removed(key in m)
    case ExpireCall(cutoff) => Dropped(|StaleKeys(m, cutoff)|)
    case ClearCall => Dropped(|m|)
  }

  function DictRun(m: map<string, Slot>, calls: seq<Call>): map<string, Slot> {
    if calls == [] then m else DictAfter(DictRun(m, calls[..|calls| - 1]), calls[|calls| - 1])
  }

  // ----- what is evicted

  datatype Setup = Setup(policy: Policy, limit: Option<int>, minFileSize: int)

  /** The rows after a call: the calls' own rules, the cull's eviction order among them. */
  function RowsAfter(p: Setup, rows: seq<Row>, call: Call): seq<Row> {
    match call
    case SetCall(key, blob, expire, now, name) =>
      Culled(p.policy, Upserted(rows, NewRow(key, blob, expire, now, p.minFileSize, name)), p.limit)
    case GetCall(key, now) => AfterGet(p.policy, rows, key, now)
    case DeleteCall(key) => AfterDelete(rows, key)
    case ExpireCall(cutoff) => FreshRows(rows, cutoff)
    case ClearCall => []
  }

  function RowsRun(p: Setup, rows: seq<Row>, calls: seq<Call>): seq<Row> {
    if calls == [] then rows else RowsAfter(p, RowsRun(p, rows, calls[..|calls| - 1]), calls[|calls| - 1])
  }

  /** The dictionary's entries that still have a row. */
  function Kept(m: map<string, Slot>, rows: seq<Row>): map<string, Slot> {
    map key | key in m && key in Keys(rows) :: m[key]
  }

  lemma {:induction false} KeptIs(held: map<string, Slot>, m: map<string, Slot>, rows: seq<Row>)
    requires Within(held, m) && held.Keys == Keys(rows)
    ensures held == Kept(m, rows)
  {
    hide Keys;
  }

  lemma {:induction false} HeldKeys(rows: seq<Row>, files: map<string, bytes>)
    ensures View(rows, files).Keys == Keys(rows)
  {
    forall key | key in Keys(rows)
      ensures Find(rows, key).Some?
    { var i :| 0 <= i < |rows| && rows[i].key == key; }
  }

  /** The bytes a run sets. */
  function Volume(calls: seq<Call>): nat {
    if calls == [] then 0
    else Volume(calls[..|calls| - 1]) + (if calls[|calls| - 1].SetCall? then |calls[|calls| - 1].blob| else 0)
  }

  lemma {:induction false} VolumeGrows(calls: seq<Call>, i: nat)
    requires i <= |calls|
    ensures Volume(calls[..i]) <= Volume(calls)
    decreases |calls| - i
  {
    if i < |calls| {
      VolumeGrows(calls, i + 1);
      assert calls[..i + 1][..i] == calls[..i];
    } else {
      assert calls[..i] == calls;
    }
  }

  /** A reply that knows at most what the dictionary knows. */
  predicate AtMost(r: Reply, full: Reply) {
    match r
    case Done => full == Done
    case Found(blob) => full.Found? && (blob.None? || blob == full.blob)
    case Removed(existed) => full.Removed? && (existed ==> full.existed)
    case Dropped(count) => full.Dropped? && count <= full.count
  }

  lemma {:induction false} FewerEntries(some: map<string, Slot>, all: map<string, Slot>, cutoff: int)
    requires Within(some, all)
    ensures |some| <= |all| && |StaleKeys(some, cutoff)| <= |StaleKeys(all, cutoff)|
  {
    Subset(some.Keys, all.Keys);
    Subset(StaleKeys(some, cutoff), StaleKeys(all, cutoff));
  }

  lemma {:induction false} Subset(a: set<string>, b: set<string>)
    requires a <= b
    ensures |a| <= |b|
  {
    assert b == a + (b - a);
  }

  /** File names come fresh. */
  predicate Fresh(calls: seq<Call>, files: map<string, bytes>) {
    && (forall i :: 0 <= i < |calls| && calls[i].SetCall? ==> calls[i].name !in files)
    && forall i, j :: 0 <= i < j < |calls| && calls[i].SetCall? && calls[j].SetCall? ==> calls[i].name != calls[j].name
  }

  /** What one call does to the entries held, and answers. */
  ghost predicate Follows(held: map<string, Slot>, call: Call, reply: Reply, after: map<string, Slot>, room: bool) {
    && Within(after, DictAfter(held, call)) && reply == DictReply(held, call)
    && (room || !call.SetCall? ==> after == DictAfter(held, call))
  }

  method Step(cache: SqliteCache, call: Call) returns (reply: Reply)
    requires cache.Valid() && (call.SetCall? ==> call.name !in cache.files)
    modifies cache
    ensures cache.Valid()
    ensures Follows(old(cache.Held()), call, reply, cache.Held(),
      cache.sizeLimit.None? || (call.SetCall? && old(cache.size) + |call.blob| <= cache.sizeLimit.value))
    ensures forall f :: f in cache.files ==> f in old(cache.files) || (call.SetCall? && f == call.name)
    ensures cache.size <= old(cache.size) + (if call.SetCall? then |call.blob| else 0)
    ensures call.SetCall? && cache.sizeLimit.Some? && cache.sizeLimit.value >= 0 ==> cache.size <= cache.sizeLimit.value
    ensures !call.SetCall? ==> cache.size <= old(cache.size)
    ensures cache.rows == RowsAfter(Setup(cache.policy, cache.sizeLimit, cache.minFileSize), old(cache.rows), call)
  {
    hide View, Sound, Total, Shrunk, Culled, Upserted, AfterGet, AfterDelete, FreshRows;
    match call
    case SetCall(key, blob, expire, now, name) =>
      var _ := cache.Set(key, blob, expire, now, name);
      reply := Done;
    case GetCall(key, now) =>
      var r := cache.Get(key, now);
      reply := Found(r);
    case DeleteCall(key) =>
      var existed := cache.Delete(key);
      reply := Removed(existed);
    case ExpireCall(cutoff) =>
      var n := cache.Expire(cutoff);
      reply := Dropped(n);
    case ClearCall =>
      var n := cache.Clear();
      reply := Dropped(n);
  }

  /** Against a dictionary that holds at least as much, one step stays below it. */
  lemma {:induction false} StaysBelow(held: map<string, Slot>, m: map<string, Slot>, call: Call, reply: Reply,
                                      after: map<string, Slot>, room: bool)
    requires Within(held, m) && Follows(held, call, reply, after, room)
    ensures Within(after, DictAfter(m, call)) && AtMost(reply, DictReply(m, call))
  {
    if call.ExpireCall? { FewerEntries(held, m, call.cutoff); }
    FewerEntries(held, m, 0);
  }

  /** The replies so far know at most what the dictionary's do. */
  ghost predicate Below(replies: seq<Reply>, m: map<string, Slot>, calls: seq<Call>) {
    |replies| <= |calls| && forall i :: 0 <= i < |replies| ==>
      AtMost(replies[i], DictReply(DictRun(m, calls[..i]), calls[i]))
  }

  /** The replies so far are the dictionary's. */
  ghost predicate Same(replies: seq<Reply>, m: map<string, Slot>, calls: seq<Call>) {
    |replies| <= |calls| && forall i :: 0 <= i < |replies| ==> replies[i] == DictReply(DictRun(m, calls[..i]), calls[i])
  }

  /** The replies so far are those of the dictionary less exactly what its rows' rules evicted. */
  ghost predicate Evicting(replies: seq<Reply>, p: Setup, rows: seq<Row>, m: map<string, Slot>, calls: seq<Call>) {
    |replies| <= |calls| && forall i :: 0 <= i < |replies| ==>
      replies[i] == DictReply(Kept(DictRun(m, calls[..i]), RowsRun(p, rows, calls[..i])), calls[i])
  }

  /** Any run keeps the totals and files true and the volume within the limit; its replies are those of
      the dictionary less exactly the entries whose rows were evicted, by the rows' own rules, and those of the
      whole dictionary while everything set has room. */
  method Run(cache: SqliteCache, calls: seq<Call>) returns (replies: seq<Reply>)
    requires cache.Valid() && Fresh(calls, cache.files)
    modifies cache
    ensures cache.Valid() && |replies| == |calls|
    ensures var p := Setup(cache.policy, cache.sizeLimit, cache.minFileSize);
      && cache.rows == RowsRun(p, old(cache.rows), calls)
      && cache.Held() == Kept(DictRun(old(cache.Held()), calls), cache.rows)
      && Evicting(replies, p, old(cache.rows), old(cache.Held()), calls)
    ensures Below(replies, old(cache.Held()), calls) && Within(cache.Held(), DictRun(old(cache.Held()), calls))
    ensures cache.sizeLimit.None? || old(cache.size) + Volume(calls) <= cache.sizeLimit.value ==>
      Same(replies, old(cache.Held()), calls) && cache.Held() == DictRun(old(cache.Held()), calls)
    ensures cache.sizeLimit.Some? && 0 <= cache.sizeLimit.value && old(cache.size) <= cache.sizeLimit.value ==>
      cache.size <= cache.sizeLimit.value
  {
    hide View, Sound, Total, Follows, DictRun, DictAfter, DictReply, Below, Same, Within, Volume, RowsRun, Kept,
      Evicting, RowsAfter;
    replies := [];
    var i := 0;
    ghost var m, rows := cache.Held(), cache.rows;
    ghost var p := Setup(cache.policy, cache.sizeLimit, cache.minFileSize);
    HeldKeys(rows, cache.files);
    KeptIs(m, m, rows) by { SelfWithin(m); }
    StartRows(p, rows, m, calls);
    ghost var room := cache.sizeLimit.None? || cache.size + Volume(calls) <= cache.sizeLimit.value;
    Start(m, calls);
    while i < |calls|
      invariant 0 <= i <= |calls| && |replies| == i && cache.Valid()
      invariant forall k :: i <= k < |calls| && calls[k].SetCall? ==> calls[k].name !in cache.files
      invariant Within(cache.Held(), DictRun(m, calls[..i])) && Below(replies, m, calls)
      invariant cache.rows == RowsRun(p, rows, calls[..i]) && cache.Held() == Kept(DictRun(m, calls[..i]), cache.rows)
      invariant Evicting(replies, p, rows, m, calls)
      invariant cache.size <= old(cache.size) + Volume(calls[..i])
      invariant room ==> cache.Held() == DictRun(m, calls[..i]) && Same(replies, m, calls)
      invariant cache.sizeLimit.Some? && 0 <= cache.sizeLimit.value && old(cache.size) <= cache.sizeLimit.value ==>
        cache.size <= cache.sizeLimit.value
    {
      ghost var held := cache.Held();
      var call := calls[i];
      ghost var fits := cache.sizeLimit.None? || (call.SetCall? && cache.size + |call.blob| <= cache.sizeLimit.value);
      VolumeStep(calls, i);
      var reply := Step(cache, call);
      Advance(m, calls, replies, held, reply, cache.Held(), fits);
      HeldKeys(cache.rows, cache.files);
      KeptIs(cache.Held(), DictRun(m, calls[..i + 1]), cache.rows);
      AdvanceRows(p, rows, m, calls, replies, held, reply, cache.Held(), fits);
      replies := replies + [reply];
      i := i + 1;
    }
    assert calls[..i] == calls;
  }

  lemma {:induction false} Start(m: map<string, Slot>, calls: seq<Call>)
    ensures DictRun(m, calls[..0]) == m && Within(m, m) && Volume(calls[..0]) == 0 && Below([], m, calls)
            && Same([], m, calls)
  {
  }

  lemma {:induction false} SelfWithin(m: map<string, Slot>)
    ensures Within(m, m)
  {}

  lemma {:induction false} StartRows(p: Setup, rows: seq<Row>, m: map<string, Slot>, calls: seq<Call>)
    ensures RowsRun(p, rows, calls[..0]) == rows && Evicting([], p, rows, m, calls)
  {}

  lemma {:induction false} AdvanceRows(p: Setup, rows: seq<Row>, m: map<string, Slot>, calls: seq<Call>,
                                       replies: seq<Reply>, held: map<string, Slot>, reply: Reply,
                                       after: map<string, Slot>, fits: bool)
    requires |replies| < |calls| && Evicting(replies, p, rows, m, calls)
    requires held == Kept(DictRun(m, calls[..|replies|]), RowsRun(p, rows, calls[..|replies|]))
    requires Follows(held, calls[|replies|], reply, after, fits)
    ensures Evicting(replies + [reply], p, rows, m, calls)
    ensures RowsRun(p, rows, calls[..|replies| + 1])
            == RowsAfter(p, RowsRun(p, rows, calls[..|replies|]), calls[|replies|])
  {
    hide Within, DictAfter, DictReply, Kept, DictRun, RowsAfter;
    var i := |replies|;
    assert calls[..i + 1][..i] == calls[..i] && calls[..i + 1][i] == calls[i];
  }

  lemma {:induction false} VolumeStep(calls: seq<Call>, i: nat)
    requires i < |calls|
    ensures Volume(calls[..i + 1]) == Volume(calls[..i]) + (if calls[i].SetCall? then |calls[i].blob| else 0)
    ensures Volume(calls[..i + 1]) <= Volume(calls)
  {
    assert calls[..i + 1][..i] == calls[..i];
    VolumeGrows(calls, i + 1);
  }

  lemma {:induction false} DictRunStep(m: map<string, Slot>, calls: seq<Call>, i: nat)
    requires i < |calls|
    ensures DictRun(m, calls[..i + 1]) == DictAfter(DictRun(m, calls[..i]), calls[i])
  {
    hide DictAfter;
    assert calls[..i + 1][..i] == calls[..i] && calls[..i + 1][i] == calls[i];
  }

  lemma {:induction false} BelowSnoc(replies: seq<Reply>, m: map<string, Slot>, calls: seq<Call>, reply: Reply)
    requires |replies| < |calls| && Below(replies, m, calls)
    requires AtMost(reply, DictReply(DictRun(m, calls[..|replies|]), calls[|replies|]))
    ensures Below(replies + [reply], m, calls)
  {
    hide AtMost, DictReply, DictRun;
  }

  lemma {:induction false} SameSnoc(replies: seq<Reply>, m: map<string, Slot>, calls: seq<Call>, reply: Reply)
    requires |replies| < |calls| && reply == DictReply(DictRun(m, calls[..|replies|]), calls[|replies|])
    ensures Same(replies, m, calls) ==> Same(replies + [reply], m, calls)
  {
    hide DictReply, DictRun;
  }

  lemma {:induction false} Advance(m: map<string, Slot>, calls: seq<Call>, replies: seq<Reply>, held: map<string, Slot>,
                                   reply: Reply, after: map<string, Slot>, fits: bool)
    requires |replies| < |calls| && Below(replies, m, calls) && Within(held, DictRun(m, calls[..|replies|]))
    requires Follows(held, calls[|replies|], reply, after, fits)
    ensures Below(replies + [reply], m, calls) && Within(after, DictRun(m, calls[..|replies| + 1]))
    ensures Same(replies, m, calls) && held == DictRun(m, calls[..|replies|])
            && (fits || !calls[|replies|].SetCall?) ==>
      Same(replies + [reply], m, calls) && after == DictRun(m, calls[..|replies| + 1])
  {
    var i := |replies|;
    DictRunStep(m, calls, i);
    hide Within, AtMost, DictAfter, DictReply, DictRun, Below, Same;
    StaysBelow(held, DictRun(m, calls[..i]), calls[i], reply, after, fits);
    BelowSnoc(replies, m, calls, reply);
    if reply == DictReply(DictRun(m, calls[..i]), calls[i]) { SameSnoc(replies, m, calls, reply); }
  }
}
