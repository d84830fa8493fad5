/** An environment that lacks a class beside one that has it, with a record that the first can only salvage: the
    hypotheses on compaction across environments can be met, and the value survives. */
module SkewWitness {
  import opened Bytes
  import opened Options
  import opened Pickle
  import opened Frames
  import opened ScanFacts
  import opened Fold
  import opened Store
  import opened Compaction
  import opened CompactionScope
  import opened Hypotheses

  /** The value that needs the class. */
  const INSTANCE: PyObj := Other(0)

  /** A record of a one-letter key with that value. */
  function Rich(letter: byte, time: byte): Record {
    Small(letter, time, Plain).(value := Inline(INSTANCE))
  }

  function RichBlob(letter: byte, time: byte): bytes {
    [PROTO, letter, time, 9]
  }

  predicate IsRichBlob(b: bytes) {
    |b| == 4 && b[0] == PROTO && b[3] == 9
  }

  /** What the environment without the class makes of the blob: the envelope, and the blob itself. */
  function Stub(letter: byte, time: byte): Record {
    Small(letter, time, Plain).(value := Opaque(RichBlob(letter, time)))
  }

  /** The small environment, which salvages the envelope of such a blob. */
  function Skewed(): Env {
    SmallEnv().(salvage := (b: bytes) => if IsRichBlob(b) then Salvaged(TupleOf(Small(b[1], b[2], Plain)), 4, {"m.C"})
                                         else Unsalvageable)
  }

  predicate IsRich(o: PyObj) {
    && ValidEnvelope(o)
    && |o.items[0].s| == 1 && o.items[0].s[0] as int < 256
    && o.items[3].n.Ticks? && 0 <= o.items[3].n.t < 256
    && EnvelopeOf(o, Inline(o.items[1])) == Rich(o.items[0].s[0] as int, o.items[3].n.t)
  }

  /** The same environment with the class. */
  function Full(): Env {
    SmallEnv().(
      storable := (o: PyObj) => o.Nil? || IsSmall(o) || IsRich(o),
      dumps := (o: PyObj) => if IsRich(o) then RichBlob(o.items[0].s[0] as int, o.items[3].n.t) else SmallDumps(o),
      load := (b: bytes) => if IsRichBlob(b) then Loaded(TupleOf(Rich(b[1], b[2])), 4) else SmallLoad(b))
  }

  lemma {:induction false} RichIsRich(letter: byte, time: byte)
    ensures IsRich(TupleOf(Rich(letter, time)))
  {
    EnvelopeRoundTrip(Rich(letter, time));
  }

  lemma {:induction false} SkewedIsLawful()
    ensures Lawful(Skewed())
  {
    SmallIsLawful();
  }

  lemma {:induction false} FullReloads(o: PyObj)
    requires o.Nil? || IsSmall(o) || IsRich(o)
    ensures var b := Full().dumps(o); Full().load(b) == Loaded(o, |b|) && |b| > 0 && b[0] == PROTO
  {
    if IsRich(o) { TupleRoundTrip(o); } else { SmallReloads(o); }
  }

  lemma {:induction false} FullIsLawful()
    ensures Lawful(Full())
  {
    var env := Full();
    forall o | env.storable(o)
      ensures env.load(env.dumps(o)) == Loaded(o, |env.dumps(o)|) && |env.dumps(o)| > 0 && env.dumps(o)[0] == PROTO
    { FullReloads(o); }
    forall b: bytes | env.load(b).Loaded?
      ensures env.storable(env.load(b).obj) && |env.dumps(env.load(b).obj)| < U32
    {
      if IsRichBlob(b) { RichIsRich(b[1], b[2]); }
      else if b != NilBlob() { SmallIsSmall(b[1], b[2], KindOf(b[3])); }
    }
  }

  lemma {:induction false} FullLoadsAll()
    ensures LoadsAll(Skewed(), Full())
  {
    forall o | Skewed().storable(o)
      ensures Full().load(Skewed().dumps(o)) == Loaded(o, |Skewed().dumps(o)|)
    { SmallReloads(o); }
  }

  /** The blob, as each environment reads it. */
  lemma {:induction false} ReadTwice(letter: byte, time: byte)
    ensures Faithful(Skewed(), Stub(letter, time))
    ensures ParseBlob(Full(), RichBlob(letter, time)) == Some(Rich(letter, time))
  {
    EnvelopeRoundTrip(Small(letter, time, Plain));
    EnvelopeRoundTrip(Rich(letter, time));
  }

  /** The log that the environment with the class wrote. */
  function RichLog(letter: byte, time: byte): bytes {
    ReadTwice(letter, time);
    FrameAll(Skewed(), [Stub(letter, time)])
  }

  lemma {:induction false} RichLogFrames(letter: byte, time: byte)
    ensures var data := RichLog(letter, time);
            && ParseFrame(Skewed(), data, 0) == Some(Span(Stub(letter, time), 0, |data|))
            && ParseFrame(Full(), data, 0) == Some(Span(Rich(letter, time), 0, |data|))
            && HEADER <= |data|
  {
    ReadTwice(letter, time);
    var r, data := Stub(letter, time), RichLog(letter, time);
    FrameAllStep(Skewed(), [r]);
    assert [r][1..] == [] && FrameAll(Skewed(), []) == [];
    hide Skewed, Full, ParseFrame, Frame;
    assert data == [] + Frame(Skewed(), r) + [];
    ParseForeignFrame(Skewed(), Skewed(), [], r, r, []);
    ParseForeignFrame(Skewed(), Full(), [], r, Rich(letter, time), []);
    FrameHead(Skewed(), r);
  }

  /** All the hypotheses together, with a record that one environment decodes and the other salvages. */
  lemma {:induction false} SkewCanHold(letter: byte, time: byte)
    ensures Lawful(Skewed()) && Lawful(Full()) && LoadsAll(Skewed(), Full())
    ensures SeesAs(Skewed(), Full(), RichLog(letter, time))
    ensures RecordsOf(Walk(Skewed(), RichLog(letter, time), 0)) == [Stub(letter, time)]
    ensures RecordsOf(Walk(Full(), RichLog(letter, time), 0)) == [Rich(letter, time)]
  {
    SkewedIsLawful();
    FullIsLawful();
    FullLoadsAll();
    RichLogFrames(letter, time);
    var data := RichLog(letter, time);
    hide Skewed, Full, ParseFrame, Lawful, RichLog, LoadsAll;
    OverFrame(Skewed(), data, 0);
    OverFrame(Full(), data, 0);
    WalkAtEnd(Skewed(), data);
    WalkAtEnd(Full(), data);
    assert SeesAlong(Skewed(), Full(), data, |data|);
    assert SeesFrame(Skewed(), Full(), data, 0) by { assert SameEnvelope(Stub(letter, time), Rich(letter, time)); }
  }

  /** A compaction without the class keeps the value for those that have it. */
  lemma {:induction false} ValueSurvives(letter: byte, time: byte, log: string, now: int)
    ensures Lawful(Skewed())
    ensures var w := Winner(ScanLog(Full(), log, CompactLog(Skewed(), log, RichLog(letter, time), now)),
                            [letter as char]);
            w.Some? && w.value.rec == Rich(letter, time)
  {
    SkewCanHold(letter, time);
    var data := RichLog(letter, time);
    hide Skewed, Full, Lawful, RichLog, LoadsAll, SeesAlong, Walk, CompactLog;
    CompactionAcrossEnvironments(Skewed(), Full(), log, data, now, [letter as char]);
    var items := ScanLog(Full(), log, data);
    assert RecordsOf(Walk(Full(), data, 0))[0] == Rich(letter, time);
    assert |items| == 1 && items[0].rec == Rich(letter, time);
    LoneItemWins(items);
  }

  lemma {:induction false} LoneItemWins(items: seq<Located>)
    requires |items| == 1
    ensures Winner(items, items[0].rec.key) == Some(items[0])
  {
    assert items[..0] == [];
  }
}
