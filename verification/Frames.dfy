/** Length-framed logs: parsing one frame, resyncing past damage, scanning a whole log. */
module Frames {
  import opened Bytes
  import opened Options
  import opened Pickle

  const HEADER: nat := 4

  /** A record together with the byte span of its frame. */
  datatype Span = Span(rec: Record, start: nat, end: nat)

  datatype ScanResult = ScanResult(
    records: seq<Record>,
    spans: seq<(nat, nat)>,
    tearAt: Option<nat>,
    recovered: nat)

  // ------------------------------------------------------------------ one frame

  /** Parse one `[length][blob]` frame at `pos`. */
  function ParseFrame(env: Env, data: bytes, pos: nat): (r: Option<Span>)
    ensures r.Some? ==> r.value.start == pos && pos + HEADER <= r.value.end <= |data|
  {
    if pos + HEADER > |data| then None
    else
      var end := pos + HEADER + UnpackBE(data[pos..pos + HEADER]);
      if end > |data| then None
      else
        var rec := ParseBlob(env, data[pos + HEADER..end]);
        if rec.None? then None else Some(Span(rec.value, pos, end))
  }

  /** A frame that `_resync` accepts: it parses and its blob starts with the PROTO opcode. */
  predicate IsAnchor(env: Env, data: bytes, f: nat) {
    f + HEADER < |data| && data[f + HEADER] == PROTO && ParseFrame(env, data, f).Some?
  }

  function Frame(env: Env, r: Record): (f: bytes)
    requires |BlobOf(env, r)| < U32
    ensures |f| == HEADER + |BlobOf(env, r)|
  {
    Widths();
    PackBE(|BlobOf(env, r)|, HEADER) + BlobOf(env, r)
  }

  // ------------------------------------------------------------------ what a scan means

  /** The first anchor at or after `from`. */
  function NextAnchor(env: Env, data: bytes, from: nat): (r: Option<nat>)
    ensures r.Some? ==> from <= r.value && IsAnchor(env, data, r.value)
    ensures r.Some? ==> forall f: nat :: from <= f < r.value ==> !IsAnchor(env, data, f)
    ensures r.None? ==> forall f: nat :: from <= f ==> !IsAnchor(env, data, f)
    decreases |data| - from
  {
    if from + HEADER >= |data| then None
    else if IsAnchor(env, data, from) then Some(from)
    else NextAnchor(env, data, from + 1)
  }

  /** Every record a scan from `pos` finds, resyncing past damage. */
  function Walk(env: Env, data: bytes, pos: nat): seq<Span>
    decreases |data| - pos
  {
    if pos + HEADER > |data| then []
    else
      var here := ParseFrame(env, data, pos);
      if here.Some? then [here.value] + Walk(env, data, here.value.end)
      else
        var next := NextAnchor(env, data, pos + 1);
        if next.None? then [] else Walk(env, data, next.value)
  }

  /** The records a reader that stops at the first bad frame would see. */
  function Intact(env: Env, data: bytes, pos: nat): seq<Span>
    decreases |data| - pos
  {
    var here := ParseFrame(env, data, pos);
    if here.None? then [] else [here.value] + Intact(env, data, here.value.end)
  }

  function IntactEnd(env: Env, data: bytes, pos: nat): (end: nat)
    ensures pos <= end
    ensures ParseFrame(env, data, end).None?
    decreases |data| - pos
  {
    var here := ParseFrame(env, data, pos);
    if here.None? then pos else IntactEnd(env, data, here.value.end)
  }

  /** The records of located things. */
  function Each<T>(xs: seq<T>, rec: T -> Record): (r: seq<Record>)
    ensures |r| == |xs| && forall i :: 0 <= i < |xs| ==> r[i] == rec(xs[i])
  {
    seq(|xs|, i requires 0 <= i < |xs| => rec(xs[i]))
  }

  function RecordsOf(spans: seq<Span>): (r: seq<Record>)
    ensures |r| == |spans| && forall i :: 0 <= i < |spans| ==> r[i] == spans[i].rec
  {
    Each(spans, (s: Span) => s.rec)
  }

  function RangesOf(spans: seq<Span>): (r: seq<(nat, nat)>)
    ensures |r| == |spans|
  {
    seq(|spans|, i requires 0 <= i < |spans| => (spans[i].start, spans[i].end))
  }

  /** The byte offset of the first torn frame, if any. */
  function TearAt(env: Env, data: bytes): Option<nat> {
    var end := IntactEnd(env, data, 0);
    if end + HEADER <= |data| then Some(end) else None
  }

  // ------------------------------------------------------------------ the readers

  /** `bytes.find` of one byte. */
  method FindByte(data: bytes, b: byte, from: nat) returns (idx: int)
    ensures idx == -1 || from <= idx < |data|
    ensures idx >= 0 ==> data[idx] == b && forall i :: from <= i < idx ==> data[i] != b
    ensures idx == -1 ==> forall i :: from <= i < |data| ==> data[i] != b
  {
    idx := from;
    while idx < |data|
      invariant from <= idx
      invariant forall i :: from <= i < idx && i < |data| ==> data[i] != b
    {
      if data[idx] == b { return; }
      idx := idx + 1;
    }
    idx := -1;
  }

  /** The next valid frame strictly after `after`: the least later anchor, and none only when there
      is none. */
  method Resync(env: Env, data: bytes, after: nat) returns (r: Option<nat>)
    ensures r.Some? ==> after < r.value && IsAnchor(env, data, r.value)
    ensures r.Some? ==> forall f: nat :: after < f < r.value ==> !IsAnchor(env, data, f)
    ensures r.None? ==> forall f: nat :: after < f ==> !IsAnchor(env, data, f)
  {
    var search := after + HEADER + 1;
    while true
      invariant after + HEADER < search
      invariant forall f: nat :: after < f && f + HEADER < search ==> !IsAnchor(env, data, f)
      decreases |data| - search
    {
      var idx := FindByte(data, PROTO, search);
      if idx < 0 {
        return None;
      }
      var frameStart := idx - HEADER;
      if frameStart > after && ParseFrame(env, data, frameStart).Some? {
        return Some(frameStart);
      }
      search := idx + 1;
    }
  }

  /** How far a scan has got: `seen` so far, the rest still to be found from `pos`. */
  ghost predicate Progress(env: Env, data: bytes, pos: nat, seen: seq<Span>, tearAt: Option<nat>, recovered: int) {
    && seen + Walk(env, data, pos) == Walk(env, data, 0)
    && (tearAt.None? ==>
          && seen + Intact(env, data, pos) == Intact(env, data, 0)
          && IntactEnd(env, data, pos) == IntactEnd(env, data, 0) && recovered == 0)
    && (tearAt.Some? ==>
          && tearAt.value == IntactEnd(env, data, 0) && tearAt.value + HEADER <= |data|
          && recovered == |seen| - |Intact(env, data, 0)|)
  }

  /** One step of the scans over a frame that parses. */
  lemma {:induction false} OverFrame(env: Env, data: bytes, pos: nat)
    requires ParseFrame(env, data, pos).Some?
    ensures var here := ParseFrame(env, data, pos).value;
            && Walk(env, data, pos) == [here] + Walk(env, data, here.end)
            && Intact(env, data, pos) == [here] + Intact(env, data, here.end)
            && IntactEnd(env, data, pos) == IntactEnd(env, data, here.end)
  {
    hide ParseFrame;
  }

  /** One step of the scans over a tear. */
  lemma {:induction false} OverTear(env: Env, data: bytes, pos: nat)
    requires pos + HEADER <= |data| && ParseFrame(env, data, pos).None?
    ensures var next := NextAnchor(env, data, pos + 1);
            && Walk(env, data, pos) == (if next.Some? then Walk(env, data, next.value) else [])
            && Intact(env, data, pos) == [] && IntactEnd(env, data, pos) == pos
  {
    hide ParseFrame, NextAnchor;
  }

  lemma {:induction false} MoveOver(seen: seq<Span>, here: Span, rest: seq<Span>)
    ensures seen + ([here] + rest) == (seen + [here]) + rest
  {}

  lemma {:induction false} ProgressOverFrame(env: Env, data: bytes, pos: nat, seen: seq<Span>, tearAt: Option<nat>,
                                             recovered: int)
    requires pos + HEADER <= |data| && ParseFrame(env, data, pos).Some?
    requires Progress(env, data, pos, seen, tearAt, recovered)
    ensures var here := ParseFrame(env, data, pos).value;
            Progress(env, data, here.end, seen + [here], tearAt, if tearAt.Some? then recovered + 1 else recovered)
  {
    OverFrame(env, data, pos);
    hide ParseFrame, Walk, Intact, IntactEnd;
    var here := ParseFrame(env, data, pos).value;
    MoveOver(seen, here, Walk(env, data, here.end));
    MoveOver(seen, here, Intact(env, data, here.end));
  }

  lemma {:induction false} ProgressOverTear(env: Env, data: bytes, pos: nat, seen: seq<Span>, tearAt: Option<nat>,
                                            recovered: int)
    requires pos + HEADER <= |data| && ParseFrame(env, data, pos).None?
    requires Progress(env, data, pos, seen, tearAt, recovered)
    ensures var next := NextAnchor(env, data, pos + 1);
            var tear := if tearAt.None? then Some(pos) else tearAt;
            if next.Some? then Progress(env, data, next.value, seen, tear, recovered)
            else seen == Walk(env, data, 0) && TearAt(env, data) == tear
                 && recovered == |seen| - |Intact(env, data, 0)|
  {
    OverTear(env, data, pos);
    hide ParseFrame, Walk, Intact, IntactEnd;
    assert seen + [] == seen;
  }

  lemma {:induction false} ProgressDone(env: Env, data: bytes, pos: nat, seen: seq<Span>, tearAt: Option<nat>,
                                        recovered: int)
    requires pos + HEADER > |data|
    requires Progress(env, data, pos, seen, tearAt, recovered)
    ensures seen == Walk(env, data, 0) && TearAt(env, data) == tearAt
    ensures recovered == |seen| - |Intact(env, data, 0)|
  {
    hide ParseFrame;
    assert seen + [] == seen;
    if tearAt.None? {
      assert Intact(env, data, pos) == [];
    }
  }

  /** The start of a scan, before anything is read. */
  lemma {:induction false} ProgressAtStart(env: Env, data: bytes)
    ensures Progress(env, data, 0, [], None, 0)
    ensures RecordsOf([]) == [] && RangesOf([]) == []
  {
    hide Walk, Intact, IntactEnd;
  }

  lemma {:induction false} RecordsSnoc(spans: seq<Span>, s: Span)
    ensures RecordsOf(spans + [s]) == RecordsOf(spans) + [s.rec]
    ensures RangesOf(spans + [s]) == RangesOf(spans) + [(s.start, s.end)]
  {}

  /** The least anchor behind `after` is the one there is. */
  lemma {:induction false} AnchorIsNext(env: Env, data: bytes, after: nat, r: Option<nat>)
    requires r.Some? ==> after < r.value && IsAnchor(env, data, r.value)
    requires r.Some? ==> forall f: nat :: after < f < r.value ==> !IsAnchor(env, data, f)
    requires r.None? ==> forall f: nat :: after < f ==> !IsAnchor(env, data, f)
    ensures r == NextAnchor(env, data, after + 1)
  {
    hide IsAnchor;
  }

  /** Read every valid record of a log, skipping damaged stretches. */
  method ReadRecords(env: Env, data: bytes) returns (scan: ScanResult)
    ensures scan.records == RecordsOf(Walk(env, data, 0))
    ensures scan.spans == RangesOf(Walk(env, data, 0))
    ensures scan.tearAt == TearAt(env, data)
    ensures scan.recovered == |Walk(env, data, 0)| - |Intact(env, data, 0)|
  {
    hide Progress, Walk, Intact, IntactEnd, TearAt, RecordsOf, RangesOf, ParseFrame, NextAnchor;
    ProgressAtStart(env, data);
    var pos := 0;
    var records: seq<Record>, spans: seq<(nat, nat)> := [], [];
    var tearAt: Option<nat>, recovered := None, 0;
    ghost var seen: seq<Span> := [];
    while pos + HEADER <= |data|
      invariant records == RecordsOf(seen) && spans == RangesOf(seen)
      invariant Progress(env, data, pos, seen, tearAt, recovered)
      decreases |data| - pos
    {
      var parsed := ParseFrame(env, data, pos);
      if parsed.Some? {
        ProgressOverFrame(env, data, pos, seen, tearAt, recovered);
        RecordsSnoc(seen, parsed.value);
        if tearAt.Some? { recovered := recovered + 1; }
        records := records + [parsed.value.rec];
        spans := spans + [(pos, parsed.value.end)];
        seen := seen + [parsed.value];
        pos := parsed.value.end;
        continue;
      }
      ProgressOverTear(env, data, pos, seen, tearAt, recovered);
      if tearAt.None? { tearAt := Some(pos); }
      var next := Resync(env, data, pos);
      AnchorIsNext(env, data, pos, next);
      if next.None? {
        return ScanResult(records, spans, tearAt, recovered);
      }
      pos := next.value;
    }
    ProgressDone(env, data, pos, seen, tearAt, recovered);
    scan := ScanResult(records, spans, tearAt, recovered);
  }
}
