/** Compaction seen by others: peers' logs beside the rewritten one, and environments that can
    decode values the rewriting one could not. */
module CompactionScope {
  import opened Bytes
  import opened Options
  import opened Order
  import opened Pickle
  import opened Frames
  import opened ScanFacts
  import opened Fold
  import opened Store
  import opened Compaction

  // ------------------------------------------------------------------ beside peers

  /** The items of one log's turn in a gathering. */
  function Turn(env: Env, logs: map<string, LogFile>, name: string): seq<Located> {
    if name in logs && logs[name].readable then ScanLog(env, name, logs[name].data) else []
  }

  /** The prefix as it would be without this writer's records. */
  function WithoutOwn(logs: map<string, LogFile>, own: string): map<string, LogFile> {
    logs[own := LogFile([], true, 0)]
  }

  lemma {:induction false} GatherTurn(env: Env, logs: map<string, LogFile>, names: seq<string>)
    requires names != []
    ensures Gather(env, logs, names) ==
            Gather(env, logs, names[..|names| - 1]) + Turn(env, logs, names[|names| - 1])
  {}

  /** Rewriting one log so that a key keeps its record there keeps the key's merged record. */
  lemma {:induction false} MergedSame(env: Env, logs: map<string, LogFile>, after: map<string, LogFile>, own: string,
                                      names: seq<string>, key: string)
    requires forall n :: n in names && n != own ==> Turn(env, logs, n) == Turn(env, after, n)
    requires SameRecord(Winner(Turn(env, logs, own), key), Winner(Turn(env, after, own), key))
    ensures SameRecord(Winner(Gather(env, logs, names), key), Winner(Gather(env, after, names), key))
    decreases |names|
  {
    hide Turn, Winner, Gather;
    if names == [] {
      NothingWins(env, logs, key);
      NothingWins(env, after, key);
    } else {
      var front, last := names[..|names| - 1], names[|names| - 1];
      GatherTurn(env, logs, names);
      GatherTurn(env, after, names);
      WinnerConcat(Gather(env, logs, front), Turn(env, logs, last), key);
      WinnerConcat(Gather(env, after, front), Turn(env, after, last), key);
      WinnerHasKey(Turn(env, logs, last), key);
      WinnerHasKey(Turn(env, after, last), key);
      MergedSame(env, logs, after, own, front, key);
    }
  }

  lemma {:induction false} NothingWins(env: Env, logs: map<string, LogFile>, key: string)
    ensures Winner(Gather(env, logs, []), key).None?
  {}

  /** Either one's own log holds a key's merged record, or one's own records change nothing. */
  lemma {:induction false} OwnOrPeers(env: Env, logs: map<string, LogFile>, own: string, names: seq<string>,
                                      key: string)
    ensures var all, peers := Winner(Gather(env, logs, names), key),
                              Winner(Gather(env, WithoutOwn(logs, own), names), key);
            && (all == peers || (all.Some? && all.value.log == own && all.value in Turn(env, logs, own)
                                 && Winner(Turn(env, logs, own), key) == all))
            && (peers.Some? ==> all.Some? && peers.value.rec.Time() <= all.value.rec.Time())
    decreases |names|
  {
    hide Winner, Gather, ScanLog;
    var bare := WithoutOwn(logs, own);
    if names == [] {
      NothingWins(env, logs, key);
      NothingWins(env, bare, key);
    } else {
      var front, last := names[..|names| - 1], names[|names| - 1];
      GatherTurn(env, logs, names);
      GatherTurn(env, bare, names);
      WinnerConcat(Gather(env, logs, front), Turn(env, logs, last), key);
      WinnerConcat(Gather(env, bare, front), Turn(env, bare, last), key);
      WinnerHasKey(Turn(env, logs, last), key);
      OwnOrPeers(env, logs, own, front, key);
      if last == own {
        EmptyLogHasNothing(env, own, key);
        if own in logs && logs[own].readable { ScanLogMembers(env, own, logs[own].data); }
      }
    }
  }

  lemma {:induction false} EmptyLogHasNothing(env: Env, log: string, key: string)
    ensures ScanLog(env, log, []) == [] && Winner([], key).None?
  {}

  /** The logs after this writer's log is compacted. */
  function AfterCompaction(env: Env, logs: map<string, LogFile>, own: string, now: int, mtime: int)
    : map<string, LogFile>
    requires Lawful(env) && own in logs && logs[own].readable
  {
    logs[own := LogFile(CompactLog(env, own, logs[own].data, now), true, mtime)]
  }

  /** Compacting one's own log changes the merged answer of a key only in one case: the key's merged
      record is a dead one of the compacted log, and a peer holds an older record that is live.  In
      particular nothing changes for a key whose own-log winner is live, or that no peer mentions. */
  lemma {:induction false} MergedAnswerUnderCompaction(env: Env, logs: map<string, LogFile>, own: string, now: int,
                                                       mtime: int, key: string, t: int)
    requires Lawful(env) && own in logs && logs[own].readable && t >= now
    ensures var after := AfterCompaction(env, logs, own, now, mtime);
            var ownWinner := Winner(ScanLog(env, own, logs[own].data), key);
            var peers := AnswerAt(AllItems(env, WithoutOwn(logs, own)), key, t);
            && (AnswerAt(AllItems(env, after), key, t) == AnswerAt(AllItems(env, logs), key, t)
                <==> !(&& ownWinner.Some? && !ownWinner.value.rec.LiveAt(now)
                       && Winner(AllItems(env, logs), key) == ownWinner
                       && peers.Some?))
  {
    hide Lawful, CompactLog, Winner, Gather, ScanLog, SortedNames, ParseFrame;
    var after := AfterCompaction(env, logs, own, now, mtime);
    var bare := WithoutOwn(logs, own);
    var names := SortedNames(logs.Keys);
    assert after.Keys == logs.Keys == bare.Keys;
    CompactedWinner(env, own, logs[own].data, now, key);
    OwnOrPeers(env, logs, own, names, key);
    var w := Winner(ScanLog(env, own, logs[own].data), key);
    if w.Some? && !w.value.rec.LiveAt(now) {
      EmptyLogHasNothing(env, own, key);
      MergedSame(env, after, bare, own, names, key);
      if w.value.rec.LiveAt(t) { DeadStaysDead(w.value.rec, now, t); }
    } else {
      MergedSame(env, logs, after, own, names, key);
    }
  }

  // ------------------------------------------------------------------ across environments

  /** Everything of a record but its value. */
  predicate SameEnvelope(a: Record, b: Record) {
    a.key == b.key && a.expireTime == b.expireTime && a.storeTime == b.storeTime
    && a.deleted == b.deleted && a.spill == b.spill
  }

  /** A frame at `pos` is decoded where the rewrite runs to the record the fuller environment reads, or
      salvaged with that record's envelope, and what does not parse for one does not for the other. */
  ghost predicate SeesFrame(skewed: Env, full: Env, data: bytes, pos: nat) {
    var p, q := ParseFrame(skewed, data, pos), ParseFrame(full, data, pos);
    && (p.Some? <==> q.Some?)
    && (p.Some? ==> SameEnvelope(p.value.rec, q.value.rec)
                    && (p.value.rec.value.Inline? ==> p.value.rec == q.value.rec))
  }

  /** So at every frame a scan from `pos` comes to; past a tear both resume at the same place. */
  ghost predicate SeesAlong(skewed: Env, full: Env, data: bytes, pos: nat)
    decreases |data| - pos
  {
    pos + HEADER <= |data| ==>
      && SeesFrame(skewed, full, data, pos)
      && var here := ParseFrame(skewed, data, pos);
         if here.Some? then SeesAlong(skewed, full, data, here.value.end)
         else
           var next := NextAnchor(skewed, data, pos + 1);
           next == NextAnchor(full, data, pos + 1) && (next.Some? ==> SeesAlong(skewed, full, data, next.value))
  }

  ghost predicate SeesAs(skewed: Env, full: Env, data: bytes) {
    SeesAlong(skewed, full, data, 0)
  }

  lemma {:induction false} SeesSpans(skewed: Env, full: Env, data: bytes, pos: nat)
    requires SeesAlong(skewed, full, data, pos)
    ensures forall s :: s in Walk(skewed, data, pos) ==> SeesFrame(skewed, full, data, s.start)
    decreases |data| - pos
  {
    hide ParseFrame, SeesFrame;
    if pos + HEADER <= |data| {
      var here := ParseFrame(skewed, data, pos);
      if here.Some? {
        OverFrame(skewed, data, pos);
        SeesSpans(skewed, full, data, here.value.end);
      } else if NextAnchor(skewed, data, pos + 1).Some? {
        SeesSpans(skewed, full, data, NextAnchor(skewed, data, pos + 1).value);
      }
    }
  }

  /** Over a log without a tear, agreement at the frames scanned is all it takes. */
  lemma {:induction false} FramesSuffice(skewed: Env, full: Env, data: bytes, pos: nat)
    requires IntactEnd(skewed, data, pos) + HEADER > |data|
    requires forall s :: s in Walk(skewed, data, pos) ==> SeesFrame(skewed, full, data, s.start)
    ensures SeesAlong(skewed, full, data, pos)
    decreases |data| - pos
  {
    hide ParseFrame, SeesFrame;
    if pos + HEADER <= |data| {
      var here := ParseFrame(skewed, data, pos);
      assert here.Some?;
      OverFrame(skewed, data, pos);
      assert here.value in Walk(skewed, data, pos);
      FramesSuffice(skewed, full, data, here.value.end);
    }
  }

  /** What one environment stores, the other loads. */
  ghost predicate LoadsAll(skewed: Env, full: Env) {
    forall o :: skewed.storable(o) ==>
      full.load(skewed.dumps(o)) == Loaded(o, |skewed.dumps(o)|)
  }

  lemma {:induction false} SameSpanEnd(skewed: Env, full: Env, data: bytes, pos: nat)
    requires ParseFrame(skewed, data, pos).Some? && ParseFrame(full, data, pos).Some?
    ensures ParseFrame(skewed, data, pos).value.end == ParseFrame(full, data, pos).value.end
  {}

  /** The record the fuller environment reads where the skewed one read `x`. */
  function InFull(full: Env, data: bytes, x: Located): Located {
    var q := ParseFrame(full, data, x.start);
    if q.Some? then Located(q.value.rec, x.log, x.start, x.end) else x
  }

  ghost predicate Paired(full: Env, data: bytes, items: seq<Located>, items': seq<Located>) {
    |items| == |items'| && forall i :: 0 <= i < |items| ==> items'[i] == InFull(full, data, items[i])
  }

  lemma {:induction false} ScansPair(skewed: Env, full: Env, log: string, data: bytes, pos: nat)
    requires SeesAlong(skewed, full, data, pos)
    ensures Paired(full, data, LocateAll(log, Walk(skewed, data, pos)), LocateAll(log, Walk(full, data, pos)))
    decreases |data| - pos
  {
    hide ParseFrame;
    if pos + HEADER <= |data| {
      var p, q := ParseFrame(skewed, data, pos), ParseFrame(full, data, pos);
      if p.Some? {
        SameSpanEnd(skewed, full, data, pos);
        ScansPair(skewed, full, log, data, p.value.end);
        LocateCons(log, p.value, Walk(skewed, data, p.value.end));
        LocateCons(log, q.value, Walk(full, data, p.value.end));
        PairedCons(full, data, Located(p.value.rec, log, p.value.start, p.value.end),
                   LocateAll(log, Walk(skewed, data, p.value.end)), LocateAll(log, Walk(full, data, p.value.end)));
      } else if NextAnchor(full, data, pos + 1).Some? {
        ScansPair(skewed, full, log, data, NextAnchor(full, data, pos + 1).value);
      }
    }
  }

  lemma {:induction false} LocateCons(log: string, s: Span, rest: seq<Span>)
    ensures LocateAll(log, [s] + rest) == [Located(s.rec, log, s.start, s.end)] + LocateAll(log, rest)
  {}

  lemma {:induction false} PairedCons(full: Env, data: bytes, x: Located, items: seq<Located>, items': seq<Located>)
    requires Paired(full, data, items, items')
    ensures Paired(full, data, [x] + items, [InFull(full, data, x)] + items')
  {
    hide InFull;
    var a, b := [x] + items, [InFull(full, data, x)] + items';
    forall i | 0 <= i < |a|
      ensures b[i] == InFull(full, data, a[i])
    {
      if i > 0 { assert a[i] == items[i - 1] && b[i] == items'[i - 1]; }
    }
  }

  /** Both environments pick the record at the same place. */
  lemma {:induction false} WinnersPair(full: Env, data: bytes, items: seq<Located>, items': seq<Located>, key: string)
    requires Paired(full, data, items, items')
    requires forall x :: x in items ==> SameEnvelope(x.rec, InFull(full, data, x).rec)
    ensures var w, w' := Winner(items, key), Winner(items', key);
            w' == if w.Some? then Some(InFull(full, data, w.value)) else None
    decreases |items|
  {
    hide InFull;
    if items != [] {
      var n := |items| - 1;
      assert items[n] in items;
      WinnersPair(full, data, items[..n], items'[..n], key);
      WinnerHasKey(items[..n], key);
      assert forall x :: x in items[..n] ==> x in items;
    }
  }

  /** The fuller environment reads one frame the skewed one wrote. */
  lemma {:induction false} ParseForeignFrame(skewed: Env, full: Env, pre: bytes, r: Record, r': Record, post: bytes)
    requires Faithful(skewed, r) && ParseBlob(full, BlobOf(skewed, r)) == Some(r')
    ensures ParseFrame(full, pre + Frame(skewed, r) + post, |pre|)
            == Some(Span(r', |pre|, |pre| + FrameLength(skewed, r)))
  {
    Widths();
    var blob := BlobOf(skewed, r);
    var data := pre + Frame(skewed, r) + post;
    UnpackPack(|blob|, HEADER);
    assert data[|pre|..|pre| + HEADER] == PackBE(|blob|, HEADER);
    assert data[|pre| + HEADER..|pre| + HEADER + |blob|] == blob;
  }

  lemma {:induction false} WalkForeignFrames(skewed: Env, full: Env, pre: bytes, recs: seq<Record>, recs': seq<Record>)
    requires AllFaithful(skewed, recs) && |recs| == |recs'|
    requires forall i :: 0 <= i < |recs| ==> ParseBlob(full, BlobOf(skewed, recs[i])) == Some(recs'[i])
    ensures RecordsOf(Walk(full, pre + FrameAll(skewed, recs), |pre|)) == recs'
    decreases |recs|
  {
    hide Walk, ParseFrame, Frame, Faithful, ParseBlob;
    var data := pre + FrameAll(skewed, recs);
    if recs == [] {
      assert data == pre;
      WalkAtEnd(full, data);
    } else {
      var f, rest := Frame(skewed, recs[0]), FrameAll(skewed, recs[1..]);
      FrameAllStep(skewed, recs);
      hide FrameAll;
      assert data == pre + f + rest == (pre + f) + rest;
      ParseForeignFrame(skewed, full, pre, recs[0], recs'[0], rest);
      OverFrame(full, data, |pre|);
      WalkForeignFrames(skewed, full, pre + f, recs[1..], recs'[1..]);
      assert recs' == [recs'[0]] + recs'[1..];
    }
  }

  /** What the skewed environment writes for a record it scanned, the fuller one reads as the record
      it saw there itself. */
  lemma {:induction false} RewriteReadsBack(skewed: Env, full: Env, data: bytes, pos: nat)
    requires Lawful(skewed) && LoadsAll(skewed, full) && SeesFrame(skewed, full, data, pos)
    requires ParseFrame(skewed, data, pos).Some?
    ensures ParseFrame(full, data, pos).Some?
    ensures ParseBlob(full, BlobOf(skewed, ParseFrame(skewed, data, pos).value.rec))
            == Some(ParseFrame(full, data, pos).value.rec)
  {
    var p := ParseFrame(skewed, data, pos).value;
    assert ParseFrame(full, data, pos).Some?;
    var q := ParseFrame(full, data, pos).value;
    SpanBlob(skewed, data, pos);
    SpanBlob(full, data, pos);
    SameSpanEnd(skewed, full, data, pos);
    var blob := data[pos + HEADER..p.end];
    if p.rec.value.Inline? {
      TupleRoundTrip(skewed.load(blob).obj);
      EnvelopeRoundTrip(p.rec);
    }
  }

  /** A compaction run where some classes are missing leaves an environment that has them the same
      live winners with the same values. */
  lemma {:induction false} CompactionAcrossEnvironments(skewed: Env, full: Env, log: string, data: bytes, now: int,
                                                        key: string)
    requires Lawful(skewed) && LoadsAll(skewed, full) && SeesAs(skewed, full, data)
    ensures var before := Winner(ScanLog(full, log, data), key);
            SameRecord(Winner(ScanLog(full, log, CompactLog(skewed, log, data, now)), key),
                       if before.Some? && before.value.rec.LiveAt(now) then before else None)
  {
    hide Lawful, LoadsAll, SeesAlong, SeesFrame, ParseFrame, ParseBlob, LiveWinners, FrameAll, Walk, Winner, Get,
      AllFaithful, BlobOf;
    var items, items' := ScanLog(skewed, log, data), ScanLog(full, log, data);
    var keep := LiveWinners(items, now);
    var out := CompactLog(skewed, log, data, now);
    ScansPair(skewed, full, log, data, 0);
    ScanLogMembers(skewed, log, data);
    SeesItems(skewed, full, log, data);
    LiveWinnersFacts(items, now);
    forall x | x in items
      ensures SameEnvelope(x.rec, InFull(full, data, x).rec)
      ensures ParseBlob(full, BlobOf(skewed, x.rec)) == Some(InFull(full, data, x).rec)
    {
      RewriteReadsBack(skewed, full, data, x.start);
      SeenEnvelope(skewed, full, data, x.start);
    }
    WinnersPair(full, data, items, items', key);
    KeptAreFaithful(skewed, log, data, now);
    var recs' := seq(|keep|, i requires 0 <= i < |keep| => InFull(full, data, keep[i]).rec);
    forall i | 0 <= i < |keep|
      ensures ParseBlob(full, BlobOf(skewed, RecordsIn(keep)[i])) == Some(recs'[i])
      ensures recs'[i].key == keep[i].rec.key
    {
      assert keep[i] in keep;
      WinnerHasKey(items, keep[i].rec.key);
      assert keep[i] in items;
    }
    WalkForeignFrames(skewed, full, [], RecordsIn(keep), recs');
    assert [] + FrameAll(skewed, RecordsIn(keep)) == out;
    var found := ScanLog(full, log, out);
    forall i | 0 <= i < |found|
      ensures found[i].rec == recs'[i]
    {
      assert RecordsOf(Walk(full, out, 0))[i] == recs'[i];
    }
    assert |found| == |RecordsOf(Walk(full, out, 0))| == |keep|;
    DistinctWins(found, key);
    GetPaired(full, data, keep, found, key);
    var w := Winner(items, key);
    WinnerHasKey(items, key);
    GetKept(keep, key);
    if w.Some? && w.value.rec.LiveAt(now) {
      GetDistinct(keep, w.value);
    }
  }

  lemma {:induction false} SeesItems(skewed: Env, full: Env, log: string, data: bytes)
    requires SeesAs(skewed, full, data)
    ensures forall x :: x in ScanLog(skewed, log, data) ==> SeesFrame(skewed, full, data, x.start)
  {
    hide Walk, SeesAlong, SeesFrame;
    SeesSpans(skewed, full, data, 0);
    var w, items := Walk(skewed, data, 0), ScanLog(skewed, log, data);
    forall x | x in items
      ensures SeesFrame(skewed, full, data, x.start)
    {
      var i :| 0 <= i < |items| && items[i] == x;
      assert w[i] in w;
    }
  }

  lemma {:induction false} SeenEnvelope(skewed: Env, full: Env, data: bytes, pos: nat)
    requires SeesFrame(skewed, full, data, pos) && ParseFrame(skewed, data, pos).Some?
    ensures ParseFrame(full, data, pos).Some?
    ensures SameEnvelope(ParseFrame(skewed, data, pos).value.rec, ParseFrame(full, data, pos).value.rec)
  {
    hide ParseFrame;
  }

  lemma {:induction false} GetPaired(full: Env, data: bytes, keep: seq<Located>, found: seq<Located>, key: string)
    requires |keep| == |found|
    requires forall i :: 0 <= i < |keep| ==>
               found[i].rec == InFull(full, data, keep[i]).rec && found[i].rec.key == keep[i].rec.key
    ensures var g, g' := Get(keep, key), Get(found, key);
            && (g.None? <==> g'.None?)
            && (g.Some? ==> g'.value.rec == InFull(full, data, g.value).rec)
    decreases |keep|
  {
    hide InFull;
    if keep != [] { GetPaired(full, data, keep[1..], found[1..], key); }
  }
}
