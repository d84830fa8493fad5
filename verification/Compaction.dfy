/** Compaction: a log rewritten to its live winners, and what the rewrite preserves. */
module Compaction {
  import opened Bytes
  import opened Options
  import opened Order
  import opened Pickle
  import opened Frames
  import opened ScanFacts
  import opened Fold
  import opened Store

  // ------------------------------------------------------------------ the rewrite

  function RecordsIn(items: seq<Located>): (r: seq<Record>)
    ensures |r| == |items| && forall i :: 0 <= i < |items| ==> r[i] == items[i].rec
  {
    Each(items, (x: Located) => x.rec)
  }

  /** The records a compaction of this log keeps. */
  function Kept(env: Env, log: string, data: bytes, now: int): seq<Record> {
    RecordsIn(LiveWinners(ScanLog(env, log, data), now))
  }

  lemma {:induction false} PlacedAreFaithful(env: Env, logs: map<string, LogFile>, items: seq<Located>)
    requires Lawful(env) && forall x :: x in items ==> Placed(env, logs, x)
    ensures AllFaithful(env, RecordsIn(items))
  {
    hide Lawful, ParseFrame, Faithful;
    forall i | 0 <= i < |items|
      ensures Faithful(env, RecordsIn(items)[i])
    {
      assert items[i] in items;
      ScannedSpanRewrites(env, logs[items[i].log].data, items[i].start);
    }
  }

  lemma {:induction false} KeptAreFaithful(env: Env, log: string, data: bytes, now: int)
    requires Lawful(env)
    ensures AllFaithful(env, Kept(env, log, data, now))
  {
    hide Lawful, ParseFrame, LiveWinners, ScanLog;
    var items := ScanLog(env, log, data);
    ScanLogMembers(env, log, data);
    LiveWinnersFacts(items, now);
    PlacedAreFaithful(env, map[log := LogFile(data, true, 0)], LiveWinners(items, now));
  }

  /** The bytes of the compacted log. */
  function CompactLog(env: Env, log: string, data: bytes, now: int): bytes
    requires Lawful(env)
  {
    KeptAreFaithful(env, log, data, now);
    FrameAll(env, Kept(env, log, data, now))
  }

  /** The body of `_compact_prefix`: fold, drop the dead, sort by store time, write the frames. */
  method Compact(env: Env, log: string, data: bytes, now: int) returns (out: bytes)
    requires Lawful(env)
    ensures out == CompactLog(env, log, data, now)
  {
    hide Lawful, ParseFrame, Walk, Intact, FrameAll, Frame, StableSort;
    var scan := ReadRecords(env, data);
    ghost var items := ScanLog(env, log, data);
    var latest: seq<Located> := [];
    assert items[..0] == [];
    for i := 0 to |scan.records|
      invariant latest == Latest(items[..i])
    {
      var (start, end) := scan.spans[i];
      assert items[..i + 1][..i] == items[..i];
      latest := Upsert(latest, Located(scan.records[i], log, start, end));
    }
    assert items[..|items|] == items;
    var keep := LiveOnes(latest, now);
    keep := StableSort(keep, TimeOf);
    KeptAreFaithful(env, log, data, now);
    out := WriteFrames(env, RecordsIn(keep));
  }

  /** `[r for r in latest if live(r)]` */
  function LiveOnes(items: seq<Located>, now: int): seq<Located> {
    Filter(items, (x: Located) => x.rec.LiveAt(now))
  }

  /** Write one frame after another. */
  method WriteFrames(env: Env, recs: seq<Record>) returns (out: bytes)
    requires AllFaithful(env, recs)
    ensures out == FrameAll(env, recs)
  {
    hide Frame, Faithful;
    out := [];
    for i := 0 to |recs|
      invariant out + FrameAll(env, recs[i..]) == FrameAll(env, recs)
    {
      FrameAllStep(env, recs[i..]);
      assert recs[i..][1..] == recs[i + 1..];
      assert out + (Frame(env, recs[i]) + FrameAll(env, recs[i + 1..]))
             == (out + Frame(env, recs[i])) + FrameAll(env, recs[i + 1..]);
      out := out + Frame(env, recs[i]);
    }
    assert out + [] == out;
  }

  // ------------------------------------------------------------------ answers

  /** The record that answers a key at time `t`: the latest-wins record, when it is live then. */
  function AnswerAt(items: seq<Located>, key: string, t: int): Option<Record> {
    var w := Winner(items, key);
    if w.Some? && w.value.rec.LiveAt(t) then Some(w.value.rec) else None
  }

  /** The same record, wherever it stands. */
  predicate SameRecord(a: Option<Located>, b: Option<Located>) {
    (a.None? && b.None?) || (a.Some? && b.Some? && a.value.rec == b.value.rec)
  }

  lemma {:induction false} DeadStaysDead(r: Record, now: int, t: int)
    requires now <= t && r.LiveAt(t)
    ensures r.LiveAt(now)
  {}

  // ------------------------------------------------------------------ one log

  /** Reading back frames of distinct-key records: each record wins for its key. */
  lemma {:induction false} RewrittenWinner(env: Env, keep: seq<Located>, log: string, key: string)
    requires DistinctKeys(keep) && AllFaithful(env, RecordsIn(keep))
    ensures SameRecord(Winner(ScanLog(env, log, FrameAll(env, RecordsIn(keep))), key), Get(keep, key))
    ensures RecordsIn(ScanLog(env, log, FrameAll(env, RecordsIn(keep)))) == RecordsIn(keep)
    ensures DistinctKeys(ScanLog(env, log, FrameAll(env, RecordsIn(keep))))
  {
    hide FrameAll, Walk, Faithful, Frame, ParseFrame, Get, Winner;
    var recs := RecordsIn(keep);
    LogRoundTrip(env, recs);
    var items := ScanLog(env, log, FrameAll(env, recs));
    forall i | 0 <= i < |items|
      ensures items[i].rec == keep[i].rec
    {
      assert RecordsOf(Walk(env, FrameAll(env, recs), 0))[i] == recs[i];
    }
    DistinctWins(items, key);
    SameGet(items, keep, key);
  }

  lemma {:induction false} SameGet(a: seq<Located>, b: seq<Located>, key: string)
    requires |a| == |b| && forall i :: 0 <= i < |a| ==> a[i].rec == b[i].rec
    ensures SameRecord(Get(a, key), Get(b, key))
    decreases |a|
  {
    if a != [] { SameGet(a[1..], b[1..], key); }
  }

  /** The compacted log's winner of a key: the old winner when live at the pass, otherwise none. */
  lemma {:induction false} CompactedWinner(env: Env, log: string, data: bytes, now: int, key: string)
    requires Lawful(env)
    ensures var w := Winner(ScanLog(env, log, data), key);
            SameRecord(Winner(ScanLog(env, log, CompactLog(env, log, data, now)), key),
                       if w.Some? && w.value.rec.LiveAt(now) then w else None)
  {
    hide Lawful, LiveWinners, ScanLog, AllFaithful, FrameAll, Winner, Get;
    var items := ScanLog(env, log, data);
    var keep := LiveWinners(items, now);
    KeptAreFaithful(env, log, data, now);
    LiveWinnersFacts(items, now);
    RewrittenWinner(env, keep, log, key);
    var w := Winner(items, key);
    if w.Some? && w.value.rec.LiveAt(now) {
      WinnerHasKey(items, key);
      GetDistinct(keep, w.value);
    } else {
      GetKept(keep, key);
    }
  }

  lemma {:induction false} WinnerHasKey(items: seq<Located>, key: string)
    ensures Winner(items, key).Some? ==> Winner(items, key).value.rec.key == key && Winner(items, key).value in items
  {}

  lemma {:induction false} GetKept(keep: seq<Located>, key: string)
    ensures Get(keep, key).Some? ==> Get(keep, key).value.rec.key == key && Get(keep, key).value in keep
  {}

  /** The rewritten log holds one live record a key in store-time order, with no tear, and answers
      every key as before, at the time of the pass and at all later times. */
  lemma {:induction false} CompactionPreservesAnswers(env: Env, log: string, data: bytes, now: int)
    requires Lawful(env)
    ensures var out := CompactLog(env, log, data, now);
            var items := ScanLog(env, log, out);
            && TearAt(env, out).None?
            && DistinctKeys(items) && SortedBy(items, TimeOf)
            && (forall x :: x in items ==> x.rec.LiveAt(now))
            && forall key, t :: t >= now ==> AnswerAt(items, key, t) == AnswerAt(ScanLog(env, log, data), key, t)
  {
    hide Lawful, FrameAll, ScanLog, AllFaithful, LiveWinners, Winner, Get, ParseFrame;
    var old_ := ScanLog(env, log, data);
    var keep := LiveWinners(old_, now);
    var out := CompactLog(env, log, data, now);
    var items := ScanLog(env, log, out);
    KeptAreFaithful(env, log, data, now);
    LiveWinnersFacts(old_, now);
    RewrittenWinner(env, keep, log, "");
    LogRoundTrip(env, RecordsIn(keep));
    forall i | 0 <= i < |items|
      ensures items[i].rec == keep[i].rec && keep[i].rec.LiveAt(now)
    {
      assert RecordsIn(items)[i] == RecordsIn(keep)[i];
      assert keep[i] in keep;
    }
    forall key, t | t >= now
      ensures AnswerAt(items, key, t) == AnswerAt(old_, key, t)
    {
      CompactedWinner(env, log, data, now, key);
      var w := Winner(old_, key);
      if w.Some? && w.value.rec.LiveAt(t) { DeadStaysDead(w.value.rec, now, t); }
    }
  }

  /** Compacting again at the same time changes nothing further. */
  lemma {:induction false} CompactionIdempotent(env: Env, log: string, data: bytes, now: int)
    requires Lawful(env)
    ensures CompactLog(env, log, CompactLog(env, log, data, now), now) == CompactLog(env, log, data, now)
  {
    hide Lawful, FrameAll, ScanLog, AllFaithful, ParseFrame;
    var out := CompactLog(env, log, data, now);
    var items := ScanLog(env, log, out);
    CompactionPreservesAnswers(env, log, data, now);
    LatestOfDistinct(items);
    FilterAll(items, (x: Located) => x.rec.LiveAt(now));
    SortSorted(items, TimeOf);
    assert LiveWinners(items, now) == items;
    hide LiveWinners;
    KeptAreFaithful(env, log, data, now);
    LiveWinnersFacts(ScanLog(env, log, data), now);
    RewrittenWinner(env, LiveWinners(ScanLog(env, log, data), now), log, "");
  }

  lemma {:induction false} LatestOfDistinct(items: seq<Located>)
    requires DistinctKeys(items)
    ensures Latest(items) == items
    decreases |items|
  {
    if items != [] {
      var n := |items| - 1;
      LatestOfDistinct(items[..n]);
      UpsertNew(items[..n], items[n]);
      assert items == items[..n] + [items[n]];
    }
  }

  lemma {:induction false} UpsertNew(dict: seq<Located>, x: Located)
    requires forall y :: y in dict ==> y.rec.key != x.rec.key
    ensures Upsert(dict, x) == dict + [x]
    decreases |dict|
  {
    if dict != [] {
      UpsertNew(dict[1..], x);
      assert dict + [x] == [dict[0]] + (dict[1..] + [x]);
    }
  }
}
