/** The packed digest index: 30-byte entries sorted by digest, searched by bisection, under an overlay. */
module Index {
  import opened Bytes
  import opened Options
  import opened Order
  import opened Pickle
  import opened Frames
  import opened ScanFacts
  import opened Fold
  import opened Store

  const ENTRY: nat := 30
  const DIGEST: nat := 16

  datatype Location = Location(log: string, offset: nat, length: nat)

  /** This process's own writes since the build. */
  datatype Seen = Deleted | At(loc: Location)

  datatype Entry = Entry(digest: bytes, logId: nat, length: nat, offset: nat)

  datatype PackedIndex = PackedIndex(logs: seq<string>, entries: bytes, overlay: map<bytes, Seen>)

  // ------------------------------------------------------------------ packing

  /** `struct.pack(">16sHIQ", ...)` does not raise. */
  predicate Packable(e: Entry) {
    |e.digest| == DIGEST && e.logId < U16 && e.length < U32 && e.offset < U64
  }

  function Pack(e: Entry): (b: bytes)
    requires Packable(e)
    ensures |b| == ENTRY
  {
    Widths();
    e.digest + PackBE(e.logId, 2) + PackBE(e.length, 4) + PackBE(e.offset, 8)
  }

  function Unpack(b: bytes): (e: Entry)
    requires |b| == ENTRY
    ensures e.digest == b[..DIGEST]
  {
    Entry(b[..16], UnpackBE(b[16..18]), UnpackBE(b[18..22]), UnpackBE(b[22..30]))
  }

  lemma {:induction false} PackedParts(a: bytes, b: bytes, c: bytes, d: bytes)
    requires |a| == 16 && |b| == 2 && |c| == 4 && |d| == 8
    ensures var s := a + b + c + d; s[..16] == a && s[16..18] == b && s[18..22] == c && s[22..30] == d
  {}

  lemma {:induction false} UnpackPacked(e: Entry)
    requires Packable(e)
    ensures Unpack(Pack(e)) == e
  {
    Widths();
    hide Pow256, PackBE, UnpackBE;
    PackedParts(e.digest, PackBE(e.logId, 2), PackBE(e.length, 4), PackBE(e.offset, 8));
    UnpackPack(e.logId, 2);
    UnpackPack(e.length, 4);
    UnpackPack(e.offset, 8);
  }

  function PackAll(es: seq<Entry>): (b: bytes)
    requires forall i :: 0 <= i < |es| ==> Packable(es[i])
    ensures |b| == ENTRY * |es|
  {
    if es == [] then [] else PackAll(es[..|es| - 1]) + Pack(es[|es| - 1])
  }

  function EntryAt(entries: bytes, i: nat): Entry
    requires ENTRY * i + ENTRY <= |entries|
  {
    Unpack(entries[ENTRY * i..ENTRY * i + ENTRY])
  }

  lemma {:induction false} EntryOfPacked(es: seq<Entry>, i: nat)
    requires forall j :: 0 <= j < |es| ==> Packable(es[j])
    requires i < |es|
    ensures EntryAt(PackAll(es), i) == es[i]
  {
    hide Pack, Unpack;
    var n := |es| - 1;
    var front, last := PackAll(es[..n]), Pack(es[n]);
    assert PackAll(es) == front + last;
    if i == n {
      assert PackAll(es)[ENTRY * n..ENTRY * n + ENTRY] == last;
      UnpackPacked(es[n]);
    } else {
      EntryOfPacked(es[..n], i);
      assert PackAll(es)[ENTRY * i..ENTRY * i + ENTRY] == front[ENTRY * i..ENTRY * i + ENTRY];
    }
  }

  // ------------------------------------------------------------------ lookup

  function Size(entries: bytes): nat { |entries| / ENTRY }

  /** Whole entries, strictly sorted by digest, naming logs of the table. */
  ghost predicate WellShaped(ix: PackedIndex) {
    && |ix.entries| % ENTRY == 0
    && (forall i :: 0 <= i < Size(ix.entries) ==> EntryAt(ix.entries, i).logId < |ix.logs|)
    && (forall i, j :: 0 <= i < j < Size(ix.entries) ==>
          Less(EntryAt(ix.entries, i).digest, EntryAt(ix.entries, j).digest))
  }

  /** Search entry by entry: what the bisection must agree with. */
  function FindFrom(ix: PackedIndex, digest: bytes, i: nat): Option<Location>
    requires WellShaped(ix)
    decreases Size(ix.entries) - i
  {
    if i >= Size(ix.entries) then None
    else
      var e := EntryAt(ix.entries, i);
      if e.digest == digest then Some(Location(ix.logs[e.logId], e.offset, e.length))
      else FindFrom(ix, digest, i + 1)
  }

  /** The location recorded for a digest: the overlay first, then the entries. */
  function Find(ix: PackedIndex, digest: bytes): Option<Location>
    requires WellShaped(ix)
  {
    if digest in ix.overlay then
      match ix.overlay[digest]
      case Deleted => None
      case At(loc) => Some(loc)
    else FindFrom(ix, digest, 0)
  }

  lemma {:induction false} FindFromAt(ix: PackedIndex, digest: bytes, i: nat, at: nat)
    requires WellShaped(ix)
    requires i <= at < Size(ix.entries) && EntryAt(ix.entries, at).digest == digest
    ensures var e := EntryAt(ix.entries, at);
            FindFrom(ix, digest, i) == Some(Location(ix.logs[e.logId], e.offset, e.length))
    decreases at - i
  {
    hide EntryAt;
    if i < at {
      LessIrreflexive(digest);
      FindFromAt(ix, digest, i + 1, at);
    }
  }

  lemma {:induction false} FindFromNone(ix: PackedIndex, digest: bytes, i: nat)
    requires WellShaped(ix)
    requires forall j :: i <= j < Size(ix.entries) ==> EntryAt(ix.entries, j).digest != digest
    ensures FindFrom(ix, digest, i).None?
    decreases Size(ix.entries) - i
  {
    hide EntryAt;
    if i < Size(ix.entries) { FindFromNone(ix, digest, i + 1); }
  }

  /** `_PackedIndex.lookup`: the overlay, then a binary search of the packed entries. */
  method Lookup(ix: PackedIndex, digest: bytes) returns (r: Option<Location>)
    requires WellShaped(ix)
    ensures r == Find(ix, digest)
  {
    hide EntryAt, FindFrom;
    if digest in ix.overlay {
      match ix.overlay[digest]
      case Deleted => return None;
      case At(loc) => return Some(loc);
    }
    var lo, hi := 0, |ix.entries| / ENTRY;
    while lo < hi
      invariant 0 <= lo <= hi <= Size(ix.entries)
      invariant forall i :: 0 <= i < lo ==> Less(EntryAt(ix.entries, i).digest, digest)
      invariant forall i :: hi <= i < Size(ix.entries) ==> Less(digest, EntryAt(ix.entries, i).digest)
    {
      var mid := (lo + hi) / 2;
      var cur := EntryAt(ix.entries, mid);
      if Less(cur.digest, digest) {
        forall i | 0 <= i < mid
          ensures Less(EntryAt(ix.entries, i).digest, digest)
        { LessTransitive(EntryAt(ix.entries, i).digest, cur.digest, digest); }
        lo := mid + 1;
      } else if Less(digest, cur.digest) {
        forall i | mid < i < Size(ix.entries)
          ensures Less(digest, EntryAt(ix.entries, i).digest)
        { LessTransitive(digest, cur.digest, EntryAt(ix.entries, i).digest); }
        hi := mid;
      } else {
        LessTotal(cur.digest, digest);
        FindFromAt(ix, digest, 0, mid);
        return Some(Location(ix.logs[cur.logId], cur.offset, cur.length));
      }
    }
    LessIrreflexive(digest);
    FindFromNone(ix, digest, 0);
    r := None;
  }

  // ------------------------------------------------------------------ building

  function LocationOf(x: Located): Location
    requires x.start <= x.end
  {
    Location(x.log, x.start, x.end - x.start)
  }

  /** The newest record of each digest, folded over the items. */
  function Merge(env: Env, items: seq<Located>): (m: map<bytes, Located>)
    ensures forall d :: d in m ==> m[d] in items && env.digest(m[d].rec.key) == d
  {
    if items == [] then map[]
    else
      var m, x := Merge(env, items[..|items| - 1]), items[|items| - 1];
      var d := env.digest(x.rec.key);
      if d in m && x.rec.Time() < m[d].rec.Time() then m else m[d := x]
  }

  /** What a fresh build at `now` answers for a digest. */
  function FreshAnswer(env: Env, items: seq<Located>, now: int, digest: bytes): Option<Location>
    requires forall x :: x in items ==> x.start <= x.end
  {
    var m := Merge(env, items);
    if digest in m && m[digest].rec.LiveAt(now) then Some(LocationOf(m[digest])) else None
  }

  ghost predicate InOrder(items: seq<Located>) {
    forall x :: x in items ==> x.start <= x.end
  }

  /** A fresh index of these items, built at `now`. */
  ghost predicate IsFresh(env: Env, items: seq<Located>, now: int, ix: PackedIndex) {
    && InOrder(items)
    && WellShaped(ix) && ix.overlay == map[]
    && forall d :: Find(ix, d) == FreshAnswer(env, items, now, d)
  }

  /** Distinct keys of the set have distinct digests. */
  ghost predicate CollisionFree(env: Env, keys: set<string>) {
    forall a, b :: a in keys && b in keys && env.digest(a) == env.digest(b) ==> a == b
  }

  /** Without collisions, the digest fold is the key fold. */
  lemma {:induction false} MergeIsWinner(env: Env, items: seq<Located>, keys: set<string>, key: string)
    requires CollisionFree(env, keys) && key in keys && forall x :: x in items ==> x.rec.key in keys
    ensures var m, d := Merge(env, items), env.digest(key);
            Winner(items, key) == if d in m then Some(m[d]) else None
  {
    if items != [] {
      var front, x := items[..|items| - 1], items[|items| - 1];
      assert items == front + [x];
      MergeIsWinner(env, front, keys, key);
      if env.digest(x.rec.key) == env.digest(key) { assert x.rec.key == key; }
    }
  }

  /** The index's hits are the live winners: a fresh lookup gives the exact place of the latest-wins
      record of a key, and nothing for a dead or absent key. */
  lemma {:induction false} FreshLookup(env: Env, items: seq<Located>, now: int, ix: PackedIndex, keys: set<string>,
                                       key: string)
    requires IsFresh(env, items, now, ix)
    requires CollisionFree(env, keys) && key in keys && forall x :: x in items ==> x.rec.key in keys
    ensures var w := Winner(items, key);
            Find(ix, env.digest(key)) ==
            if w.Some? && w.value.rec.LiveAt(now) then Some(LocationOf(w.value)) else None
  {
    MergeIsWinner(env, items, keys, key);
  }

  /** A merge entry as the build keeps it: the value itself lives only as long as the scan. */
  datatype Merged = Merged(time: int, live: bool, logId: nat, offset: nat, length: nat)

  ghost predicate Tracks(table: seq<string>, merge: map<bytes, Merged>, m: map<bytes, Located>, now: int) {
    && merge.Keys == m.Keys
    && forall d :: d in m ==>
         && m[d].start <= m[d].end
         && merge[d].logId < |table| && table[merge[d].logId] == m[d].log
         && merge[d].time == m[d].rec.Time() && merge[d].live == m[d].rec.LiveAt(now)
         && merge[d].offset == m[d].start && merge[d].length == m[d].end - m[d].start
  }

  lemma {:induction false} TracksStep(env: Env, now: int, table: seq<string>, merge: map<bytes, Merged>,
                                      before: seq<Located>, x: Located)
    requires table != [] && table[|table| - 1] == x.log && x.start <= x.end
    requires Tracks(table, merge, Merge(env, before), now)
    ensures var d := env.digest(x.rec.key);
            Tracks(table,
                   if d in merge && x.rec.Time() < merge[d].time then merge
                   else merge[d := Merged(x.rec.Time(), x.rec.LiveAt(now), |table| - 1, x.start, x.end - x.start)],
                   Merge(env, before + [x]), now)
  {
    assert (before + [x])[..|before|] == before;
  }

  /** Merge one scanned log, whose id in the table is the last one. */
  method MergeLog(env: Env, now: int, table: seq<string>, scan: ScanResult, merge0: map<bytes, Merged>,
                  ghost before: seq<Located>, ghost found: seq<Located>)
    returns (merge: map<bytes, Merged>)
    requires table != [] && Tracks(table, merge0, Merge(env, before), now)
    requires |scan.records| == |scan.spans| == |found| && InOrder(found)
    requires forall i :: 0 <= i < |found| ==>
               found[i] == Located(scan.records[i], table[|table| - 1], scan.spans[i].0, scan.spans[i].1)
    ensures Tracks(table, merge, Merge(env, before + found), now)
  {
    hide Tracks, Merge;
    merge := merge0;
    assert before + found[..0] == before;
    for i := 0 to |scan.records|
      invariant Tracks(table, merge, Merge(env, before + found[..i]), now)
    {
      var rec := scan.records[i];
      var (start, end) := scan.spans[i];
      assert found[i] in found;
      TracksStep(env, now, table, merge, before + found[..i], found[i]);
      assert before + found[..i + 1] == before + found[..i] + [found[i]];
      var digest := env.digest(rec.key);
      if digest in merge && rec.Time() < merge[digest].time {
        continue;
      }
      merge := merge[digest := Merged(rec.Time(), rec.LiveAt(now), |table| - 1, start, end - start)];
    }
    assert before + found[..|found|] == before + found;
  }

  function EntryFor(merge: map<bytes, Merged>, d: bytes): Entry
    requires d in merge
  {
    Entry(d, merge[d].logId, merge[d].length, merge[d].offset)
  }

  /** The entries of the live digests, in the order given. */
  function LiveEntries(merge: map<bytes, Merged>, digests: seq<bytes>): (es: seq<Entry>)
    requires forall d :: d in digests ==> d in merge
    ensures forall e :: e in es ==> e.digest in digests && merge[e.digest].live && e == EntryFor(merge, e.digest)
    ensures forall d :: d in digests && merge[d].live ==> EntryFor(merge, d) in es
  {
    if digests == [] then []
    else
      var d := digests[|digests| - 1];
      assert d in digests && forall x :: x in digests <==> x in digests[..|digests| - 1] || x == d;
      LiveEntries(merge, digests[..|digests| - 1]) + (if merge[d].live then [EntryFor(merge, d)] else [])
  }

  ghost predicate Ascending(es: seq<Entry>) {
    forall i, j :: 0 <= i < j < |es| ==> Less(es[i].digest, es[j].digest)
  }

  lemma {:induction false} AscendingSnoc(es: seq<Entry>, e: Entry)
    requires Ascending(es) && forall x :: x in es ==> Less(x.digest, e.digest)
    ensures Ascending(es + [e])
  {
    hide Less;
    forall i, j | 0 <= i < j < |es + [e]|
      ensures Less((es + [e])[i].digest, (es + [e])[j].digest)
    {
      assert (es + [e])[i] == es[i] && es[i] in es;
    }
  }

  lemma {:induction false} LiveEntriesSorted(merge: map<bytes, Merged>, digests: seq<bytes>)
    requires forall d :: d in digests ==> d in merge
    requires forall i, j :: 0 <= i < j < |digests| ==> Less(digests[i], digests[j])
    ensures Ascending(LiveEntries(merge, digests))
    decreases |digests|
  {
    hide Less, Ascending;
    if digests == [] {
      NoEntries(merge);
    } else {
      var n := |digests| - 1;
      LiveEntriesSorted(merge, digests[..n]);
      var front := LiveEntries(merge, digests[..n]);
      if merge[digests[n]].live {
        forall e | e in front
          ensures Less(e.digest, digests[n])
        {
          var k :| 0 <= k < n && digests[..n][k] == e.digest;
          assert digests[k] == e.digest;
        }
        AscendingSnoc(front, EntryFor(merge, digests[n]));
      } else {
        assert LiveEntries(merge, digests) == front;
      }
    }
  }

  lemma {:induction false} NoEntries(merge: map<bytes, Merged>)
    ensures LiveEntries(merge, []) == [] && Ascending([])
  {}

  lemma {:induction false} PackSnoc(es: seq<Entry>, e: Entry)
    requires Packable(e) && forall x :: x in es ==> Packable(x)
    ensures forall i :: 0 <= i < |es + [e]| ==> Packable((es + [e])[i])
    ensures PackAll(es + [e]) == PackAll(es) + Pack(e)
  {
    assert (es + [e])[..|es|] == es;
  }

  /** The live entries of the merge, sorted by digest, packed.  `None` stands for the `struct.error`
      of a field that does not fit. */
  method PackMerge(merge: map<bytes, Merged>, digests: seq<bytes>) returns (entries: Option<bytes>)
    requires forall d :: d in digests <==> d in merge
    ensures entries.Some? ==>
              && (forall e :: e in LiveEntries(merge, digests) ==> Packable(e))
              && entries.value == PackAll(LiveEntries(merge, digests))
    ensures entries.None? ==> exists d :: d in merge && merge[d].live && !Packable(EntryFor(merge, d))
  {
    hide Pack, PackAll;
    var packed: bytes := [];
    PackNone();
    for n := 0 to |digests|
      invariant forall e :: e in LiveEntries(merge, digests[..n]) ==> Packable(e)
      invariant packed == PackAll(LiveEntries(merge, digests[..n]))
    {
      var d := digests[n];
      assert d in digests;
      ghost var es := LiveEntries(merge, digests[..n]);
      assert digests[..n + 1][..n] == digests[..n];
      if merge[d].live {
        if !Packable(EntryFor(merge, d)) {
          return None;
        }
        PackSnoc(es, EntryFor(merge, d));
        assert LiveEntries(merge, digests[..n + 1]) == es + [EntryFor(merge, d)];
        packed := packed + Pack(EntryFor(merge, d));
      } else {
        assert LiveEntries(merge, digests[..n + 1]) == es + [] == es;
      }
    }
    assert digests[..|digests|] == digests;
    entries := Some(packed);
  }

  lemma {:induction false} PackNone()
    ensures PackAll([]) == []
  {}

  /** The logs that a build reads, in name order: an entry names its log by its place here. */
  function LogTable(logs: map<string, LogFile>, names: seq<string>): seq<string> {
    if names == [] then []
    else
      var last := names[|names| - 1];
      LogTable(logs, names[..|names| - 1]) + (if last in logs && logs[last].readable then [last] else [])
  }

  lemma {:induction false} LogTableNames(logs: map<string, LogFile>, names: seq<string>)
    requires forall i, j :: 0 <= i < j < |names| ==> names[i] != names[j]
    ensures var table := LogTable(logs, names);
            && |table| <= |names|
            && (forall n :: n in table <==> n in names && n in logs && logs[n].readable)
            && (forall i, j :: 0 <= i < j < |table| ==> table[i] != table[j])
  {
    if names != [] {
      var front, last := names[..|names| - 1], names[|names| - 1];
      LogTableNames(logs, front);
      assert names == front + [last];
    }
  }

  lemma {:induction false} LogTableStep(logs: map<string, LogFile>, names: seq<string>, n: nat)
    requires n < |names|
    ensures LogTable(logs, names[..n + 1]) ==
            LogTable(logs, names[..n]) + (if names[n] in logs && logs[names[n]].readable then [names[n]] else [])
  {
    assert names[..n + 1][..n] == names[..n];
  }

  /** A record's place fits a packed entry: its log is among the first 65536, its frame under 4 GiB. */
  ghost predicate Fits(table: seq<string>, x: Located) {
    && (exists i :: 0 <= i < |table| && i < U16 && table[i] == x.log)
    && x.end - x.start < U32 && x.start < U64
  }

  /** Every live winner's place fits a packed entry. */
  ghost predicate Indexable(env: Env, logs: map<string, LogFile>, now: int) {
    var m, table := Merge(env, AllItems(env, logs)), LogTable(logs, SortedNames(logs.Keys));
    forall d :: d in m && m[d].rec.LiveAt(now) ==> Fits(table, m[d])
  }

  /** The place fits exactly when its entry can be packed. */
  lemma {:induction false} FitsIsPackable(env: Env, items: seq<Located>, now: int, table: seq<string>,
                                          merge: map<bytes, Merged>, d: bytes)
    requires DigestShape(env) && Tracks(table, merge, Merge(env, items), now) && d in merge
    requires forall i, j :: 0 <= i < j < |table| ==> table[i] != table[j]
    ensures Fits(table, Merge(env, items)[d]) <==> Packable(EntryFor(merge, d))
  {
    hide Tracks;
    TracksAt(table, merge, Merge(env, items), now, d);
    var x := Merge(env, items)[d];
    assert |d| == DIGEST by { assert env.digest(x.rec.key) == d; }
    assert table[merge[d].logId] == x.log;
  }

  lemma {:induction false} ScanLogInOrder(env: Env, log: string, data: bytes)
    ensures InOrder(ScanLog(env, log, data))
  {
    hide ParseBlob;
    ScanLogMembers(env, log, data);
  }

  /** An index whose entries are these, sorted. */
  lemma {:induction false} PackedIsShaped(table: seq<string>, es: seq<Entry>)
    requires forall e :: e in es ==> Packable(e) && e.logId < |table|
    requires Ascending(es)
    ensures var ix := PackedIndex(table, PackAll(es), map[]);
            && WellShaped(ix) && Size(ix.entries) == |es|
            && forall i :: 0 <= i < |es| ==> EntryAt(ix.entries, i) == es[i]
  {
    hide Pack, Unpack, EntryAt, PackAll;
    var entries := PackAll(es);
    assert Size(entries) == |es|;
    forall i | 0 <= i < |es|
      ensures EntryAt(entries, i) == es[i] && es[i] in es
    { EntryOfPacked(es, i); }
  }

  /** The packed live entries of a merge answer every digest as a fresh index must. */
  lemma {:induction false} PackedIsFresh(env: Env, items: seq<Located>, now: int, table: seq<string>,
                                         merge: map<bytes, Merged>)
    requires InOrder(items)
    requires Tracks(table, merge, Merge(env, items), now)
    requires forall e :: e in LiveEntries(merge, SortedDigests(merge.Keys)) ==> Packable(e)
    ensures var es := LiveEntries(merge, SortedDigests(merge.Keys));
            IsFresh(env, items, now, PackedIndex(table, PackAll(es), map[]))
  {
    hide Pack, Unpack, EntryAt, PackAll, LiveEntries, SortedDigests, Merge;
    var digests := SortedDigests(merge.Keys);
    var es := LiveEntries(merge, digests);
    LiveEntriesSorted(merge, digests);
    PackedIsShaped(table, es);
    var ix := PackedIndex(table, PackAll(es), map[]);
    forall d
      ensures Find(ix, d) == FreshAnswer(env, items, now, d)
    {
      TracksAt(table, merge, Merge(env, items), now, d);
      hide WellShaped, Tracks, Find;
      if d in merge && merge[d].live {
        assert d in digests && EntryFor(merge, d) in es;
        var i :| 0 <= i < |es| && es[i] == EntryFor(merge, d);
        FoundEntry(ix, es, d, i);
      } else {
        forall i | 0 <= i < |es|
          ensures es[i].digest != d
        { assert es[i] in es; }
        FoundNone(ix, es, d);
      }
    }
  }

  lemma {:induction false} FoundEntry(ix: PackedIndex, es: seq<Entry>, d: bytes, i: nat)
    requires WellShaped(ix) && ix.overlay == map[]
    requires Size(ix.entries) == |es| && forall j :: 0 <= j < |es| ==> EntryAt(ix.entries, j) == es[j]
    requires i < |es| && es[i].digest == d
    ensures es[i].logId < |ix.logs| && Find(ix, d) == Some(Location(ix.logs[es[i].logId], es[i].offset, es[i].length))
  {
    hide EntryAt;
    FindFromAt(ix, d, 0, i);
  }

  lemma {:induction false} FoundNone(ix: PackedIndex, es: seq<Entry>, d: bytes)
    requires WellShaped(ix) && ix.overlay == map[]
    requires Size(ix.entries) == |es| && forall j :: 0 <= j < |es| ==> EntryAt(ix.entries, j) == es[j]
    requires forall j :: 0 <= j < |es| ==> es[j].digest != d
    ensures Find(ix, d).None?
  {
    hide EntryAt;
    FindFromNone(ix, d, 0);
  }

  lemma {:induction false} TracksAt(table: seq<string>, merge: map<bytes, Merged>, m: map<bytes, Located>, now: int,
                                    d: bytes)
    requires Tracks(table, merge, m, now)
    ensures d in merge <==> d in m
    ensures d in m ==>
              && merge[d].live == m[d].rec.LiveAt(now) && m[d].start <= m[d].end
              && merge[d].logId < |table| && table[merge[d].logId] == m[d].log
              && merge[d].offset == m[d].start && merge[d].length == m[d].end - m[d].start
  {}

  lemma {:induction false} TracksKeys(table: seq<string>, merge: map<bytes, Merged>, m: map<bytes, Located>, now: int)
    requires Tracks(table, merge, m, now)
    ensures merge.Keys == m.Keys && forall d :: d in m ==> merge[d].live == m[d].rec.LiveAt(now)
  {}

  /** One log's turn in the build: an unreadable log is passed over. */
  method MergeFile(env: Env, now: int, name: string, file: LogFile, table0: seq<string>, merge0: map<bytes, Merged>,
                   ghost before: seq<Located>, ghost found: seq<Located>)
    returns (table: seq<string>, merge: map<bytes, Merged>)
    requires Tracks(table0, merge0, Merge(env, before), now)
    requires found == if file.readable then ScanLog(env, name, file.data) else []
    ensures Tracks(table, merge, Merge(env, before + found), now) && InOrder(found)
    ensures table == table0 + (if file.readable then [name] else [])
  {
    hide ParseFrame, Walk, Merge, Intact;
    table, merge := table0, merge0;
    if file.readable {
      var scan := ReadRecords(env, file.data);
      ScanLogInOrder(env, name, file.data);
      table := table + [name];
      merge := MergeLog(env, now, table, scan, merge, before, found);
    } else {
      assert before + found == before;
    }
  }

  lemma {:induction false} GatherStep(env: Env, logs: map<string, LogFile>, names: seq<string>, n: nat)
    requires n < |names|
    ensures Gather(env, logs, names[..n + 1]) ==
            Gather(env, logs, names[..n])
            + (if names[n] in logs && logs[names[n]].readable then ScanLog(env, names[n], logs[names[n]].data) else [])
  {
    assert names[..n + 1][..n] == names[..n];
  }

  /** The rebuild of `_ensure_index`: scan every readable log in name order, merge, pack. */
  method Build(env: Env, logs: map<string, LogFile>, now: int) returns (ix: Option<PackedIndex>)
    requires DigestShape(env)
    ensures ix.Some? ==> IsFresh(env, AllItems(env, logs), now, ix.value)
    ensures ix.Some? <==> Indexable(env, logs, now)
  {
    hide Merge, PackAll, IsFresh, ScanLog, LiveEntries, Gather, LogTable, Packable, Fits, Tracks;
    BuildStarts(env, logs, now);
    var names := SortedNames(logs.Keys);
    var table: seq<string> := [];
    var merge: map<bytes, Merged> := map[];
    assert names[..0] == [];
    for n := 0 to |names|
      invariant table == LogTable(logs, names[..n]) && InOrder(Gather(env, logs, names[..n]))
      invariant Tracks(table, merge, Merge(env, Gather(env, logs, names[..n])), now)
    {
      var name := names[n];
      assert name in names;
      GatherStep(env, logs, names, n);
      LogTableStep(logs, names, n);
      ghost var found := if logs[name].readable then ScanLog(env, name, logs[name].data) else [];
      table, merge := MergeFile(env, now, name, logs[name], table, merge, Gather(env, logs, names[..n]), found);
    }
    assert names[..|names|] == names;
    LogTableNames(logs, names);
    ghost var m := Merge(env, AllItems(env, logs));
    TracksKeys(table, merge, m, now);
    forall d | d in merge
      ensures Fits(table, m[d]) <==> Packable(EntryFor(merge, d))
    { FitsIsPackable(env, AllItems(env, logs), now, table, merge, d); }
    var entries := PackMerge(merge, SortedDigests(merge.Keys));
    if entries.None? {
      return None;
    }
    PackedIsFresh(env, AllItems(env, logs), now, table, merge);
    ix := Some(PackedIndex(table, entries.value, map[]));
  }

  lemma {:induction false} BuildStarts(env: Env, logs: map<string, LogFile>, now: int)
    ensures InOrder(Gather(env, logs, [])) && Tracks([], map[], Merge(env, Gather(env, logs, [])), now)
    ensures LogTable(logs, []) == []
  {}
}
