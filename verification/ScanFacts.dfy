/** What a log scan guarantees, on every byte string. */
module ScanFacts {
  import opened Bytes
  import opened Options
  import opened Pickle
  import opened Frames

  // ------------------------------------------------------------------ exactness

  /** Declarative meaning of a scan from `pos`: from each place the reader stands, it takes the frame
      there if one parses, and otherwise skips to the least later anchor, stopping only when there
      is none. */
  ghost predicate ExactScan(env: Env, data: bytes, pos: nat, spans: seq<Span>)
    decreases |spans|
  {
    if spans == [] then
      ParseFrame(env, data, pos).None?
      && (pos + HEADER > |data| || forall f: nat :: pos < f ==> !IsAnchor(env, data, f))
    else
      && spans[0].start >= pos
      && ParseFrame(env, data, spans[0].start) == Some(spans[0])
      && (spans[0].start > pos ==>
            && ParseFrame(env, data, pos).None?
            && IsAnchor(env, data, spans[0].start)
            && forall f: nat :: pos < f < spans[0].start ==> !IsAnchor(env, data, f))
      && ExactScan(env, data, spans[0].end, spans[1..])
  }

  lemma {:induction false} WalkFromAnchor(env: Env, data: bytes, pos: nat)
    requires pos + HEADER <= |data| && ParseFrame(env, data, pos).None? && NextAnchor(env, data, pos + 1).Some?
    ensures var n := NextAnchor(env, data, pos + 1).value;
            var here := ParseFrame(env, data, n);
            here.Some? && Walk(env, data, pos) == [here.value] + Walk(env, data, here.value.end)
  {
    hide ParseFrame;
    var n := NextAnchor(env, data, pos + 1).value;
    assert Walk(env, data, pos) == Walk(env, data, n);
  }

  lemma {:induction false} WalkIsExact(env: Env, data: bytes, pos: nat)
    ensures ExactScan(env, data, pos, Walk(env, data, pos))
    decreases |data| - pos
  {
    hide ParseFrame;
    if pos + HEADER <= |data| {
      var here := ParseFrame(env, data, pos);
      var next := NextAnchor(env, data, pos + 1);
      if here.Some? {
        WalkIsExact(env, data, here.value.end);
      } else if next.Some? {
        WalkFromAnchor(env, data, pos);
        WalkIsExact(env, data, ParseFrame(env, data, next.value).value.end);
      }
    }
  }

  /** A scan is determined by its meaning: the records a reader may report are exactly `Walk`'s. */
  lemma {:induction false} ExactScanUnique(env: Env, data: bytes, pos: nat, spans: seq<Span>)
    requires ExactScan(env, data, pos, spans)
    ensures spans == Walk(env, data, pos)
    decreases |spans|
  {
    hide ParseFrame;
    if spans == [] {
      if pos + HEADER <= |data| && NextAnchor(env, data, pos + 1).Some? {
        assert false;
      }
    } else {
      var first := spans[0];
      ExactScanUnique(env, data, first.end, spans[1..]);
      assert spans == [first] + spans[1..];
      if first.start > pos {
        var next := NextAnchor(env, data, pos + 1);
        assert IsAnchor(env, data, first.start);
        assert next.Some? && next.value == first.start;
        WalkFromAnchor(env, data, pos);
      }
    }
  }

  /** The spans come in order, do not overlap, lie in the log and re-parse to their own record. */
  lemma {:induction false} WalkOrdered(env: Env, data: bytes, pos: nat)
    ensures var w := Walk(env, data, pos);
            && (forall s :: s in w ==> pos <= s.start && ParseFrame(env, data, s.start) == Some(s))
            && (forall i, j :: 0 <= i < j < |w| ==> w[i].end <= w[j].start)
    decreases |data| - pos
  {
    hide ParseFrame;
    if pos + HEADER <= |data| {
      var here := ParseFrame(env, data, pos);
      var next := NextAnchor(env, data, pos + 1);
      if here.Some? {
        WalkOrdered(env, data, here.value.end);
        var w, rest := Walk(env, data, pos), Walk(env, data, here.value.end);
        assert w == [here.value] + rest;
        forall i, j | 0 <= i < j < |w|
          ensures w[i].end <= w[j].start
        {
          assert w[j] == rest[j - 1];
          if i > 0 { assert w[i] == rest[i - 1]; }
        }
      } else if next.Some? {
        WalkOrdered(env, data, next.value);
        assert Walk(env, data, pos) == Walk(env, data, next.value);
      }
    }
  }

  // ------------------------------------------------------------------ tears

  /** The spans tile the log from `pos`, all but fewer than a header's worth of trailing bytes. */
  ghost predicate Tiles(data: bytes, pos: nat, spans: seq<Span>)
    decreases |spans|
  {
    if spans == [] then |data| < pos + HEADER
    else spans[0].start == pos && Tiles(data, spans[0].end, spans[1..])
  }

  /** Splitting a scan at its first tear: what a stop-at-first-tear reader sees, and the rest. */
  lemma {:induction false} WalkSplitsAtTear(env: Env, data: bytes, pos: nat)
    ensures Intact(env, data, pos) <= Walk(env, data, pos)
    ensures forall s :: s in Intact(env, data, pos) ==> s.end <= IntactEnd(env, data, pos)
    ensures forall i :: |Intact(env, data, pos)| <= i < |Walk(env, data, pos)| ==>
              Walk(env, data, pos)[i].start > IntactEnd(env, data, pos)
    ensures IntactEnd(env, data, pos) + HEADER <= |data| <==> !Tiles(data, pos, Walk(env, data, pos))
    decreases |data| - pos
  {
    hide ParseFrame;
    if pos + HEADER <= |data| {
      var here := ParseFrame(env, data, pos);
      if here.Some? {
        WalkSplitsAtTear(env, data, here.value.end);
      } else {
        var next := NextAnchor(env, data, pos + 1);
        if next.Some? {
          WalkOrdered(env, data, next.value);
          WalkFromAnchor(env, data, pos);
          assert Walk(env, data, pos) == Walk(env, data, next.value);
          assert !Tiles(data, pos, Walk(env, data, pos));
        }
      }
    }
  }

  /** A scan reports no tear iff its spans tile the log up to a short tail, and it counts as recovered
      exactly the records that start after the tear. */
  lemma {:induction false} TearReport(env: Env, data: bytes)
    ensures TearAt(env, data).None? <==> Tiles(data, 0, Walk(env, data, 0))
    ensures var w := Walk(env, data, 0);
            var n := |Intact(env, data, 0)|;
            && n <= |w|
            && (forall i :: 0 <= i < |w| && TearAt(env, data).Some? ==>
                  (n <= i <==> w[i].start > TearAt(env, data).value))
            && (TearAt(env, data).None? ==> n == |w|)
  {
    hide ParseFrame, Walk, Intact, IntactEnd, Tiles;
    WalkSplitsAtTear(env, data, 0);
    WalkOrdered(env, data, 0);
    var w := Walk(env, data, 0);
    var n := |Intact(env, data, 0)|;
    forall i | 0 <= i < |w| && i < n
      ensures w[i].start < IntactEnd(env, data, 0)
    {
      assert w[i] == Intact(env, data, 0)[i];
    }
    if n < |w| {
      assert w[n].start > IntactEnd(env, data, 0) && w[n].end <= |data|;
    }
  }

  // ------------------------------------------------------------------ locality of a frame

  lemma {:induction false} SubSlice(a: bytes, p: nat, n: nat, i: nat, j: nat)
    requires p + n <= |a| && i <= j <= n
    ensures a[p..p + n][i..j] == a[p + i..p + j]
  {
    var whole, part := a[p..p + n], a[p + i..p + j];
    assert |whole[i..j]| == |part|;
    assert forall k :: 0 <= k < |part| ==> whole[i..j][k] == whole[i + k] == a[p + i + k] == part[k];
  }

  /** A frame parses the same wherever its bytes stand. */
  lemma {:induction false} ParseLocal(env: Env, a: bytes, p: nat, b: bytes, q: nat, n: nat)
    requires p + n <= |a| && q + n <= |b| && a[p..p + n] == b[q..q + n]
    requires ParseFrame(env, a, p).Some? && ParseFrame(env, a, p).value.end <= p + n
    ensures var s := ParseFrame(env, a, p).value;
            ParseFrame(env, b, q) == Some(Span(s.rec, q, q + (s.end - p)))
  {
    var s := ParseFrame(env, a, p).value;
    var len := s.end - p;
    SubSlice(a, p, n, 0, HEADER);
    SubSlice(b, q, n, 0, HEADER);
    SubSlice(a, p, n, HEADER, len);
    SubSlice(b, q, n, HEADER, len);
  }

  /** Re-reading exactly a recorded span yields exactly its record. */
  lemma {:induction false} ParseSlice(env: Env, data: bytes, pos: nat)
    requires ParseFrame(env, data, pos).Some?
    ensures var s := ParseFrame(env, data, pos).value;
            ParseFrame(env, data[pos..s.end], 0) == Some(Span(s.rec, 0, s.end - pos))
  {
    var s := ParseFrame(env, data, pos).value;
    ParseLocal(env, data, pos, data[pos..s.end], 0, s.end - pos);
  }

  // ------------------------------------------------------------------ writing and reading back

  function FrameLength(env: Env, r: Record): nat {
    HEADER + |BlobOf(env, r)|
  }

  predicate AllFaithful(env: Env, recs: seq<Record>) {
    forall i :: 0 <= i < |recs| ==> Faithful(env, recs[i])
  }

  /** The bytes of a log that holds these records and nothing else. */
  function FrameAll(env: Env, recs: seq<Record>): bytes
    requires AllFaithful(env, recs)
  {
    if recs == [] then [] else Frame(env, recs[0]) + FrameAll(env, recs[1..])
  }

  lemma {:induction false} FrameAllStep(env: Env, recs: seq<Record>)
    requires AllFaithful(env, recs) && recs != []
    ensures FrameAll(env, recs) == Frame(env, recs[0]) + FrameAll(env, recs[1..])
  {}

  /** Where the frames of `recs` lie when written one after another from `at`. */
  function SpansFrom(env: Env, recs: seq<Record>, at: nat): (s: seq<Span>)
    ensures |s| == |recs|
    ensures forall i :: 0 <= i < |s| ==> s[i].rec == recs[i]
  {
    if recs == [] then []
    else [Span(recs[0], at, at + FrameLength(env, recs[0]))]
         + SpansFrom(env, recs[1..], at + FrameLength(env, recs[0]))
  }

  lemma {:induction false} FrameHead(env: Env, r: Record)
    requires |BlobOf(env, r)| < U32 && |BlobOf(env, r)| > 0
    ensures |Frame(env, r)| == FrameLength(env, r) && Frame(env, r)[HEADER] == BlobOf(env, r)[0]
  {}

  lemma {:induction false} ParseWrittenFrame(env: Env, pre: bytes, r: Record, post: bytes)
    requires Faithful(env, r)
    ensures ParseFrame(env, pre + Frame(env, r) + post, |pre|)
            == Some(Span(r, |pre|, |pre| + FrameLength(env, r)))
  {
    Widths();
    var blob := BlobOf(env, r);
    var data := pre + Frame(env, r) + post;
    UnpackPack(|blob|, HEADER);
    assert data[|pre|..|pre| + HEADER] == PackBE(|blob|, HEADER);
    assert data[|pre| + HEADER..|pre| + HEADER + |blob|] == blob;
  }

  lemma {:induction false} Regroup(env: Env, pre: bytes, recs: seq<Record>, post: bytes)
    requires AllFaithful(env, recs) && recs != []
    ensures var f, rest := Frame(env, recs[0]), FrameAll(env, recs[1..]);
            && pre + FrameAll(env, recs) + post == pre + f + (rest + post)
            && pre + FrameAll(env, recs) + post == (pre + f) + rest + post
            && |FrameAll(env, recs)| == |f| + |rest|
  {
    FrameAllStep(env, recs);
    hide *;
  }

  lemma {:induction false} NoFrames(env: Env, pre: bytes, post: bytes)
    ensures FrameAll(env, []) == [] && SpansFrom(env, [], |pre|) == []
  {}

  lemma {:induction false} SpansFromStep(env: Env, recs: seq<Record>, at: nat)
    requires recs != []
    ensures SpansFrom(env, recs, at)
            == [Span(recs[0], at, at + FrameLength(env, recs[0]))]
               + SpansFrom(env, recs[1..], at + FrameLength(env, recs[0]))
  {}

  /** A scan that stands before intact frames reads them all, then carries on behind them. */
  lemma {:induction false} WalkOverFrames(env: Env, pre: bytes, recs: seq<Record>, post: bytes)
    requires AllFaithful(env, recs)
    ensures Walk(env, pre + FrameAll(env, recs) + post, |pre|)
            == SpansFrom(env, recs, |pre|)
               + Walk(env, pre + FrameAll(env, recs) + post, |pre| + |FrameAll(env, recs)|)
    decreases |recs|
  {
    hide Walk, ParseFrame, Frame, Faithful, FrameAll;
    if recs == [] {
      NoFrames(env, pre, post);
    } else {
      var f, rest := Frame(env, recs[0]), FrameAll(env, recs[1..]);
      var data := pre + FrameAll(env, recs) + post;
      Regroup(env, pre, recs, post);
      ParseWrittenFrame(env, pre, recs[0], rest + post);
      OverFrame(env, data, |pre|);
      WalkOverFrames(env, pre + f, recs[1..], post);
      assert |pre + f| == |pre| + FrameLength(env, recs[0]);
      SpansFromStep(env, recs, |pre|);
    }
  }

  /** Scanning the frames of any records gives those records back, tiling the log with no tear. */
  lemma {:induction false} LogRoundTrip(env: Env, recs: seq<Record>)
    requires AllFaithful(env, recs)
    ensures var data := FrameAll(env, recs);
            && Walk(env, data, 0) == SpansFrom(env, recs, 0)
            && RecordsOf(Walk(env, data, 0)) == recs
            && Tiles(data, 0, Walk(env, data, 0)) && TearAt(env, data).None?
            && IntactEnd(env, data, 0) == |data|
  {
    hide ParseFrame, Frame, Faithful, Walk, Intact, Tiles;
    var data := FrameAll(env, recs);
    WalkToEnd(env, [], recs);
    assert [] + data == data;
    IntactOverFrames(env, [], recs);
    TearReport(env, data);
  }

  lemma {:induction false} IntactOverFrames(env: Env, pre: bytes, recs: seq<Record>)
    requires AllFaithful(env, recs)
    ensures IntactEnd(env, pre + FrameAll(env, recs), |pre|) == |pre| + |FrameAll(env, recs)|
    decreases |recs|
  {
    hide ParseFrame, Frame, Faithful;
    if recs != [] {
      var f, rest := Frame(env, recs[0]), FrameAll(env, recs[1..]);
      assert pre + FrameAll(env, recs) == pre + f + rest == (pre + f) + rest;
      ParseWrittenFrame(env, pre, recs[0], rest);
      IntactOverFrames(env, pre + f, recs[1..]);
    }
  }

  lemma {:induction false} WrittenFrameIsAnchor(env: Env, pre: bytes, r: Record, post: bytes)
    requires Faithful(env, r) && |BlobOf(env, r)| > 0 && BlobOf(env, r)[0] == PROTO
    ensures IsAnchor(env, pre + Frame(env, r) + post, |pre|)
  {
    ParseWrittenFrame(env, pre, r, post);
    FrameHead(env, r);
    assert (pre + Frame(env, r) + post)[|pre| + HEADER] == Frame(env, r)[HEADER];
  }

  /** No offset in `[from, to)` parses as a frame. */
  ghost predicate Barren(env: Env, data: bytes, from: nat, to: nat) {
    forall f: nat :: from <= f < to ==> ParseFrame(env, data, f).None?
  }

  /** A reader that meets a stretch where nothing parses resumes at the anchor behind it. */
  lemma {:induction false} SkipsDamage(env: Env, data: bytes, gap: nat, resume: nat)
    requires gap <= resume <= |data|
    requires Barren(env, data, gap, resume)
    requires resume == |data| || IsAnchor(env, data, resume)
    ensures Walk(env, data, gap) == Walk(env, data, resume)
  {
    hide ParseFrame;
    if gap < resume && gap + HEADER <= |data| {
      assert ParseFrame(env, data, gap).None?;
      if resume == |data| {
        assert forall f: nat :: gap <= f ==> !IsAnchor(env, data, f);
      } else {
        assert NextAnchor(env, data, gap + 1) == Some(resume);
      }
    }
  }

  lemma {:induction false} WalkFromStart(env: Env, recs: seq<Record>, post: bytes)
    requires AllFaithful(env, recs)
    ensures var data := FrameAll(env, recs) + post;
            Walk(env, data, 0) == SpansFrom(env, recs, 0) + Walk(env, data, |FrameAll(env, recs)|)
  {
    hide *;
    WalkOverFrames(env, [], recs, post);
    assert [] + FrameAll(env, recs) + post == FrameAll(env, recs) + post;
  }

  lemma {:induction false} WalkToEnd(env: Env, pre: bytes, recs: seq<Record>)
    requires AllFaithful(env, recs)
    ensures Walk(env, pre + FrameAll(env, recs), |pre|) == SpansFrom(env, recs, |pre|)
  {
    hide *;
    var data := pre + FrameAll(env, recs);
    WalkOverFrames(env, pre, recs, []);
    assert data + [] == data;
    WalkAtEnd(env, data);
  }

  lemma {:induction false} WalkAtEnd(env: Env, data: bytes)
    ensures Walk(env, data, |data|) == []
  {}

  lemma {:induction false} FramesAreAnchored(env: Env, pre: bytes, recs: seq<Record>)
    requires AllFaithful(env, recs)
    requires recs != [] ==> |BlobOf(env, recs[0])| > 0 && BlobOf(env, recs[0])[0] == PROTO
    ensures var data := pre + FrameAll(env, recs);
            |pre| == |data| || IsAnchor(env, data, |pre|)
  {
    hide IsAnchor, Faithful;
    if recs != [] {
      FrameAllStep(env, recs);
      hide FrameAll;
      WrittenFrameIsAnchor(env, pre, recs[0], FrameAll(env, recs[1..]));
      assert pre + Frame(env, recs[0]) + FrameAll(env, recs[1..]) == pre + FrameAll(env, recs);
    }
  }

  /** One whole stretch of damage: if no offset inside it parses, the scan returns exactly the
      records before and behind it. */
  lemma {:induction false} DamageIsLocal(env: Env, before: seq<Record>, damage: bytes, behind: seq<Record>)
    requires AllFaithful(env, before) && AllFaithful(env, behind)
    requires behind != [] ==> |BlobOf(env, behind[0])| > 0 && BlobOf(env, behind[0])[0] == PROTO
    requires Barren(env, FrameAll(env, before) + damage + FrameAll(env, behind),
                    |FrameAll(env, before)|, |FrameAll(env, before) + damage|)
    ensures var data := FrameAll(env, before) + damage + FrameAll(env, behind);
            && Walk(env, data, 0) == SpansFrom(env, before, 0)
                 + SpansFrom(env, behind, |FrameAll(env, before) + damage|)
            && RecordsOf(Walk(env, data, 0)) == before + behind
  {
    hide *;
    var a, b := FrameAll(env, before), FrameAll(env, behind);
    var data := a + damage + b;
    WalkFromStart(env, before, damage + b);
    assert a + (damage + b) == data;
    WalkToEnd(env, a + damage, behind);
    FramesAreAnchored(env, a + damage, behind);
    SkipsDamage(env, data, |a|, |a + damage|);
    RecordsOfSpans(env, before, 0, behind, |a + damage|);
  }

  lemma {:induction false} RecordsOfSpans(env: Env, r1: seq<Record>, at1: nat, r2: seq<Record>, at2: nat)
    ensures RecordsOf(SpansFrom(env, r1, at1) + SpansFrom(env, r2, at2)) == r1 + r2
  {
    hide SpansFrom;
  }

  // ------------------------------------------------------------------ appending

  lemma {:induction false} IntactGrows(env: Env, data: bytes, extra: bytes, pos: nat)
    ensures Intact(env, data, pos) <= Intact(env, data + extra, pos)
    ensures Walk(env, data + extra, pos)
            == Intact(env, data, pos) + Walk(env, data + extra, IntactEnd(env, data, pos))
    decreases |data| - pos
  {
    hide ParseFrame;
    var here := ParseFrame(env, data, pos);
    if here.Some? {
      ParseLocal(env, data, pos, data + extra, pos, here.value.end - pos);
      IntactGrows(env, data, extra, here.value.end);
    }
  }

  /** Appending any bytes never changes the records before the first tear. */
  lemma {:induction false} AppendKeepsIntactRecords(env: Env, data: bytes, extra: bytes)
    ensures Intact(env, data, 0) <= Walk(env, data + extra, 0)
    ensures TearAt(env, data).None? ==> Walk(env, data, 0) <= Walk(env, data + extra, 0)
  {
    hide ParseFrame;
    IntactGrows(env, data, extra, 0);
    WalkSplitsAtTear(env, data, 0);
    TearReport(env, data);
  }

  /** The offset `_append` reports is where the new frame parses, whatever the log held before. */
  lemma {:induction false} AppendOffset(env: Env, data: bytes, r: Record)
    requires Faithful(env, r)
    ensures var grown := data + Frame(env, r);
            ParseFrame(env, grown, |grown| - |Frame(env, r)|) == Some(Span(r, |data|, |grown|))
  {
    ParseWrittenFrame(env, data, r, []);
    assert data + Frame(env, r) + [] == data + Frame(env, r);
  }

  // ------------------------------------------------------------------ rewriting what was read

  /** Whatever a scan reads, a rewrite reproduces: the record survives its own frame, and a record
      this environment could not decode keeps its frame byte for byte. */
  lemma {:induction false} ScannedSpanRewrites(env: Env, data: bytes, pos: nat)
    requires Lawful(env) && ParseFrame(env, data, pos).Some?
    ensures var s := ParseFrame(env, data, pos).value;
            && Faithful(env, s.rec)
            && (s.rec.value.Opaque? ==> Frame(env, s.rec) == data[pos..s.end])
  {
    var s := ParseFrame(env, data, pos).value;
    var blob := data[pos + HEADER..s.end];
    SpanBlob(env, data, pos);
    hide ParseFrame, ParseBlob;
    ParsedIsFaithful(env, blob);
    if s.rec.value.Opaque? {
      PackUnpack(data[pos..pos + HEADER]);
      assert data[pos..s.end] == data[pos..pos + HEADER] + blob;
    }
  }

  /** The header of a parsed frame is the length of its blob. */
  lemma {:induction false} SpanBlob(env: Env, data: bytes, pos: nat)
    requires ParseFrame(env, data, pos).Some?
    ensures var s := ParseFrame(env, data, pos).value;
            var blob := data[pos + HEADER..s.end];
            && |blob| < U32 && |blob| == UnpackBE(data[pos..pos + HEADER])
            && ParseBlob(env, blob) == Some(s.rec)
  {
    hide ParseBlob;
    Widths();
  }
}
