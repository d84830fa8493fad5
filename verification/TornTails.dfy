/** Appends behind a torn tail: exactly which records that could be read before they hide, and a log where one is. */
module TornTails {
  import opened Bytes
  import opened Options
  import opened Pickle
  import opened Frames
  import opened ScanFacts
  import opened Fold
  import opened Store
  import opened Hypotheses
  import opened ConcurrentPasses

  // ------------------------------------------------------------------ what an append hides

  /** A scan from `pos` skips `f`: no frame it reads stands there. */
  ghost predicate Skipped(env: Env, data: bytes, pos: nat, f: nat) {
    forall t :: t in Walk(env, data, pos) ==> f < t.start || t.end <= f
  }

  /** A scan from `pos` tries to parse at `f`: it starts there, or a frame it reads ends there. */
  ghost predicate Tried(env: Env, data: bytes, pos: nat, f: nat) {
    f == pos || exists t :: t in Walk(env, data, pos) && t.end == f
  }

  /** The new bytes complete a torn frame at `f`, which a scan then takes. */
  ghost predicate Completed(env: Env, data: bytes, extra: bytes, pos: nat, f: nat) {
    && pos <= f && Skipped(env, data, pos, f) && ParseFrame(env, data + extra, f).Some?
    && (Tried(env, data, pos, f) || IsAnchor(env, data + extra, f))
  }

  lemma {:induction false} ParsesStill(env: Env, data: bytes, extra: bytes, pos: nat)
    ensures ParseFrame(env, data, pos).Some? ==> ParseFrame(env, data + extra, pos) == ParseFrame(env, data, pos)
    ensures ParseFrame(env, data, pos).None? && ParseFrame(env, data + extra, pos).Some? ==>
              ParseFrame(env, data + extra, pos).value.end > |data|
  {
    hide ParseFrame;
    if ParseFrame(env, data, pos).Some? {
      ParseLocal(env, data, pos, data + extra, pos, ParseFrame(env, data, pos).value.end - pos);
    } else if ParseFrame(env, data + extra, pos).Some? {
      var end := ParseFrame(env, data + extra, pos).value.end;
      if end <= |data| { ParseLocal(env, data + extra, pos, data, pos, end - pos); }
    }
  }

  /** The spans of a scan from `pos` start there or later, and end in the data. */
  lemma {:induction false} SpansWithin(env: Env, data: bytes, pos: nat)
    ensures forall t :: t in Walk(env, data, pos) ==> pos <= t.start < t.end <= |data|
  {
    hide Walk, ParseFrame;
    WalkOrdered(env, data, pos);
  }

  /** Once a scan takes a frame that ends in the new bytes, it finds nothing more in the old ones. */
  lemma {:induction false} TakenHides(env: Env, data: bytes, extra: bytes, pos: nat, s: Span)
    requires ParseFrame(env, data + extra, pos).Some? && ParseFrame(env, data + extra, pos).value.end > |data|
    requires s.end <= |data|
    ensures s !in Walk(env, data + extra, pos)
  {
    hide Walk, ParseFrame;
    OverFrame(env, data + extra, pos);
    var here := ParseFrame(env, data + extra, pos).value;
    SpansWithin(env, data + extra, here.end);
  }

  /** The scan goes over a frame that it reads with and without the new bytes. */
  lemma {:induction false} OverRead(env: Env, data: bytes, extra: bytes, pos: nat, f: nat)
    requires ParseFrame(env, data, pos).Some?
    ensures var end := ParseFrame(env, data, pos).value.end;
            Completed(env, data, extra, pos, f) <==> end <= f && Completed(env, data, extra, end, f)
  {
    hide Walk, ParseFrame;
    OverFrame(env, data, pos);
    ParsesStill(env, data, extra, pos);
    var here := ParseFrame(env, data, pos).value;
    SpansWithin(env, data, pos);
    SpansWithin(env, data, here.end);
    assert here in Walk(env, data, pos);
    assert forall t :: t in Walk(env, data, pos) <==> t == here || t in Walk(env, data, here.end);
  }

  /** The scan resumes at the same place with and without the new bytes. */
  lemma {:induction false} SameResume(env: Env, data: bytes, extra: bytes, pos: nat, f: nat)
    requires pos + HEADER <= |data| && ParseFrame(env, data, pos).None? && ParseFrame(env, data + extra, pos).None?
    requires NextAnchor(env, data, pos + 1).Some?
    requires NextAnchor(env, data + extra, pos + 1) == NextAnchor(env, data, pos + 1)
    ensures var a := NextAnchor(env, data, pos + 1).value;
            Completed(env, data, extra, pos, f) <==> a <= f && Completed(env, data, extra, a, f)
  {
    hide Walk, ParseFrame, IsAnchor;
    var a := NextAnchor(env, data, pos + 1).value;
    Resynced(env, data, pos);
    SpansWithin(env, data, a);
    assert ParseFrame(env, data, a).Some? by { AnchorParses(env, data, a); }
    OverFrame(env, data, a);
    var here := ParseFrame(env, data, a).value;
    assert here in Walk(env, data, a);
  }

  lemma {:induction false} AnchorParses(env: Env, data: bytes, f: nat)
    requires IsAnchor(env, data, f)
    ensures ParseFrame(env, data, f).Some?
  {}

  lemma {:induction false} AnchorInside(env: Env, data: bytes, f: nat)
    requires IsAnchor(env, data, f)
    ensures f + HEADER < |data|
  {}

  /** A place where the scan resumes is one with more bytes behind it. */
  lemma {:induction false} AnchorStays(env: Env, data: bytes, extra: bytes, f: nat)
    requires IsAnchor(env, data, f)
    ensures IsAnchor(env, data + extra, f)
  {
    hide ParseFrame;
    ParsesStill(env, data, extra, f);
  }

  /** An append hides a record that a scan read, at its place, if and only if it completes a torn frame before it. */
  lemma {:induction false} HiddenExactly(env: Env, data: bytes, extra: bytes, pos: nat, s: Span)
    requires s in Walk(env, data, pos)
    ensures s !in Walk(env, data + extra, pos) <==> exists f: nat :: f < s.start && Completed(env, data, extra, pos, f)
    decreases |data| - pos
  {
    hide Walk, ParseFrame, Completed, IsAnchor;
    SpansWithin(env, data, pos);
    ParsesStill(env, data, extra, pos);
    if ParseFrame(env, data, pos).Some? {
      var here := ParseFrame(env, data, pos).value;
      OverFrame(env, data, pos);
      OverFrame(env, data + extra, pos);
      forall f: nat
        ensures Completed(env, data, extra, pos, f) <==> here.end <= f && Completed(env, data, extra, here.end, f)
      { OverRead(env, data, extra, pos, f); }
      if s in Walk(env, data, here.end) {
        HiddenExactly(env, data, extra, here.end, s);
        SpansWithin(env, data, here.end);
        CompletedFrom(env, data, extra, here.end);
      }
    } else {
      NotRead(env, data, pos, s);
      var a := NextAnchor(env, data, pos + 1).value;
      Resynced(env, data, pos);
      SpansWithin(env, data, a);
      AnchorStays(env, data, extra, a);
      if ParseFrame(env, data + extra, pos).Some? {
        TakenHides(env, data, extra, pos, s);
        CompletedAt(env, data, extra, pos, a, pos);
      } else {
        Resynced(env, data + extra, pos);
        var b := NextAnchor(env, data + extra, pos + 1).value;
        if b == a {
          forall f: nat
            ensures Completed(env, data, extra, pos, f) <==> a <= f && Completed(env, data, extra, a, f)
          { SameResume(env, data, extra, pos, f); }
          HiddenExactly(env, data, extra, a, s);
          CompletedFrom(env, data, extra, a);
        } else {
          AnchorParses(env, data + extra, b);
          ParsesStill(env, data, extra, b);
          assert b < a && a + HEADER < |data| by { AnchorInside(env, data, a); }
          NotAnchored(env, data, extra, b);
          TakenHides(env, data, extra, b, s);
          CompletedAt(env, data, extra, pos, a, b);
        }
      }
    }
  }

  lemma {:induction false} CompletedFrom(env: Env, data: bytes, extra: bytes, pos: nat)
    ensures forall f: nat :: Completed(env, data, extra, pos, f) ==> pos <= f
  {
    hide Walk, ParseFrame, IsAnchor;
  }

  lemma {:induction false} NotRead(env: Env, data: bytes, pos: nat, s: Span)
    requires s in Walk(env, data, pos) && ParseFrame(env, data, pos).None?
    ensures pos + HEADER <= |data| && NextAnchor(env, data, pos + 1).Some?
  {
    hide ParseFrame;
  }

  /** An anchor that appears with the new bytes was no frame without them. */
  lemma {:induction false} NotAnchored(env: Env, data: bytes, extra: bytes, f: nat)
    requires IsAnchor(env, data + extra, f) && !IsAnchor(env, data, f) && f + HEADER < |data|
    ensures ParseFrame(env, data, f).None?
  {
    hide ParseBlob;
  }

  /** A frame taken in the gap before `a` is completed by the append. */
  lemma {:induction false} CompletedAt(env: Env, data: bytes, extra: bytes, pos: nat, a: nat, f: nat)
    requires pos <= f < a && ParseFrame(env, data + extra, f).Some? && (f == pos || IsAnchor(env, data + extra, f))
    requires Walk(env, data, pos) == Walk(env, data, a)
    ensures Completed(env, data, extra, pos, f)
  {
    hide Walk, ParseFrame, IsAnchor;
    SpansWithin(env, data, a);
  }

  /** So a record that an append makes unreadable stood behind a torn frame that the append completes. */
  lemma {:induction false} UnsettledWereBehind(env: Env, data: bytes, extra: bytes, r: Record)
    requires r in Unsettled(env, data, extra)
    ensures exists f: nat, s ::
              s in Walk(env, data, 0) && s.rec == r && f < s.start && Completed(env, data, extra, 0, f)
  {
    hide Walk, Completed;
    var s :| s in Walk(env, data, 0) && s.rec == r;
    HiddenExactly(env, data, extra, 0, s);
  }

  // ------------------------------------------------------------------ a log where it happens

  /** A frame of 13 bytes torn after 12, of which the last 8 are a whole frame. */
  const TAIL: bytes := [0, 0, 0, 13, PROTO, 107, 1, 9, 0, 0, 0, 4, PROTO, 107, 2, 0]

  /** The small environment, in which the 13 bytes, once there, load as a record of another key. */
  function SwallowEnv(): Env {
    SmallEnv().(load := (b: bytes) => if b == (TAIL + [0])[HEADER..] then Loaded(TupleOf(Small(106, 9, Plain)), 13)
                                      else SmallLoad(b))
  }

  lemma {:induction false} SwallowIsLawful()
    ensures Lawful(SwallowEnv())
  {
    SmallIsLawful();
    SmallIsSmall(106, 9, Plain);
    var env := SwallowEnv();
    forall o | env.storable(o)
      ensures env.load(env.dumps(o)) == Loaded(o, |env.dumps(o)|) && |env.dumps(o)| > 0 && env.dumps(o)[0] == PROTO
    { SmallReloads(o); }
    forall b: bytes | env.load(b).Loaded?
      ensures env.storable(env.load(b).obj) && |env.dumps(env.load(b).obj)| < U32
    {
      if |b| != 13 && b != NilBlob() { SmallIsSmall(b[1], b[2], KindOf(b[3])); }
    }
  }

  lemma {:induction false} UnpackByte(b: byte)
    ensures UnpackBE([0, 0, 0, b]) == b
  {
    assert [0, 0, 0, b][..3] == [0, 0, 0] && [0, 0, 0][..2] == [0, 0] && [0, 0][..1] == [0] && [0][..0] == [];
    assert UnpackBE([0, 0]) == 256 * UnpackBE([0]) + 0;
    assert UnpackBE([0, 0, 0]) == 256 * UnpackBE([0, 0]) + 0;
  }

  /** A frame with a one-byte length. */
  lemma {:induction false} ShortFrame(env: Env, data: bytes, pos: nat, n: byte, blob: bytes)
    requires pos + HEADER <= |data| && data[pos..pos + HEADER] == [0, 0, 0, n]
    ensures pos + HEADER + n > |data| ==> ParseFrame(env, data, pos).None?
    ensures pos + HEADER + n <= |data| && blob == data[pos + HEADER..pos + HEADER + n] && ParseBlob(env, blob).Some? ==>
              ParseFrame(env, data, pos) == Some(Span(ParseBlob(env, blob).value, pos, pos + HEADER + n))
  {
    hide ParseBlob;
    UnpackByte(n);
  }

  lemma {:induction false} Blobs()
    ensures ParseBlob(SwallowEnv(), [PROTO, 107, 2, 0]) == Some(Small(107, 2, Plain))
    ensures ParseBlob(SwallowEnv(), (TAIL + [0])[HEADER..]) == Some(Small(106, 9, Plain))
  {
    EnvelopeRoundTrip(Small(107, 2, Plain));
    EnvelopeRoundTrip(Small(106, 9, Plain));
  }

  /** The whole frame in the tail is found by resyncing. */
  lemma {:induction false} TailScans()
    ensures Walk(SwallowEnv(), TAIL, 0) == [Span(Small(107, 2, Plain), 8, 16)]
  {
    var env := SwallowEnv();
    Blobs();
    hide SwallowEnv, ParseFrame, ParseBlob, Walk;
    ShortFrame(env, TAIL, 0, 13, []);
    ShortFrame(env, TAIL, 8, 4, [PROTO, 107, 2, 0]);
    assert IsAnchor(env, TAIL, 8);
    forall f: nat | 1 <= f < 8
      ensures !IsAnchor(env, TAIL, f)
    { assert TAIL[f + HEADER] != PROTO; }
    assert NextAnchor(env, TAIL, 1) == Some(8);
    Resynced(env, TAIL, 0);
    OverFrame(env, TAIL, 8);
    WalkAtEnd(env, TAIL);
  }

  lemma {:induction false} Resynced(env: Env, data: bytes, pos: nat)
    requires pos + HEADER <= |data| && ParseFrame(env, data, pos).None? && NextAnchor(env, data, pos + 1).Some?
    ensures Walk(env, data, pos) == Walk(env, data, NextAnchor(env, data, pos + 1).value)
  {}

  /** One more byte completes the torn frame, which swallows it. */
  lemma {:induction false} GrownScans()
    ensures Walk(SwallowEnv(), TAIL + [0], 0) == [Span(Small(106, 9, Plain), 0, 17)]
  {
    var env, grown := SwallowEnv(), TAIL + [0];
    Blobs();
    hide SwallowEnv, ParseFrame, ParseBlob, Walk;
    ShortFrame(env, grown, 0, 13, grown[HEADER..]);
    OverFrame(env, grown, 0);
    WalkAtEnd(env, grown);
  }

  /** The key's only record was read before the append, and cannot be after it. */
  lemma {:induction false} AppendHidesRecord(log: string)
    ensures Lawful(SwallowEnv())
    ensures Unsettled(SwallowEnv(), TAIL, [0]) == {Small(107, 2, Plain)}
    ensures Winner(ScanLog(SwallowEnv(), log, TAIL), "k").Some?
    ensures Winner(ScanLog(SwallowEnv(), log, TAIL + [0]), "k").None?
  {
    SwallowIsLawful();
    TailScans();
    GrownScans();
    assert [107 as char] == "k" && [106 as char] != "k";
    hide SwallowEnv, Lawful, Walk;
    WinnerIsNewest(ScanLog(SwallowEnv(), log, TAIL + [0]), "k");
    WinnerIsNewest(ScanLog(SwallowEnv(), log, TAIL), "k");
    assert ScanLog(SwallowEnv(), log, TAIL)[0] in ScanLog(SwallowEnv(), log, TAIL);
  }
}
