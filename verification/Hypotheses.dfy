/** The hypotheses about pickle and md5 can be met: an environment that stores a value and the records of its
    `set`s, inline and spilled, with and without a time to live, and of deletes. */
module Hypotheses {
  import opened Bytes
  import opened Options
  import opened Pickle
  import opened Frames
  import opened Store
  import opened Index
  import opened LogCaches
  import opened LoneWriterRoom

  /** The records of one prefix, "p", with the value `None`: a `set` inline, a delete, a `set` spilled, and a `set`
      inline that expires after one tick. */
  datatype Kind = Plain | Deletion | InPool | Fleeting

  function CodeOf(kind: Kind): byte {
    match kind case Plain => 0 case Deletion => 1 case InPool => 2 case Fleeting => 3
  }

  function KindOf(code: byte): Kind {
    if code == 0 then Plain else if code == 1 then Deletion else if code == 2 then InPool else Fleeting
  }

  const POOL_FILE: string := "p" + "/spill/" + [] + ".val"

  /** A record with a one-letter key and a one-byte store time. */
  function Small(letter: byte, time: byte, kind: Kind): Record {
    Record([letter as char], Inline(Nil), if kind.Fleeting? then Some(Ticks(time + 1)) else None, Ticks(time),
           kind.Deletion?, if kind.InPool? then Some(POOL_FILE) else None)
  }

  predicate IsSmall(o: PyObj) {
    && ValidEnvelope(o)
    && |o.items[0].s| == 1 && o.items[0].s[0] as int < 256
    && o.items[3].n.Ticks? && 0 <= o.items[3].n.t < 256
    && EnvelopeOf(o, Inline(o.items[1])) == Small(o.items[0].s[0] as int, o.items[3].n.t, KindIn(o))
  }

  function KindIn(o: PyObj): Kind
    requires ValidEnvelope(o)
  {
    if o.items[4].n.b then Deletion else if o.items[5].Str? then InPool
    else if o.items[2].Num? then Fleeting else Plain
  }

  function NilBlob(): bytes { [PROTO, 0] }

  function SmallBlob(letter: byte, time: byte, kind: Kind): bytes {
    [PROTO, letter, time, CodeOf(kind)]
  }

  function SmallDumps(o: PyObj): bytes {
    if o.Nil? then NilBlob()
    else if IsSmall(o) then SmallBlob(o.items[0].s[0] as int, o.items[3].n.t, KindIn(o))
    else []
  }

  function SmallLoad(b: bytes): LoadOutcome {
    if b == NilBlob() then Loaded(Nil, 2)
    else if |b| == 4 && b[0] == PROTO && b[3] <= 3 then Loaded(TupleOf(Small(b[1], b[2], KindOf(b[3]))), 4)
    else Raised
  }

  function SmallEnv(): Env {
    Env((o: PyObj) => o.Nil? || IsSmall(o),
        (o: PyObj) => SmallDumps(o),
        (b: bytes) => SmallLoad(b),
        (b: bytes) => Unsalvageable,
        (k: string) => seq(16, i => if k != [] && k[0] as int < 256 then k[0] as int else 0),
        (b: bytes) => [])
  }

  lemma {:induction false} SmallIsSmall(letter: byte, time: byte, kind: Kind)
    ensures IsSmall(TupleOf(Small(letter, time, kind)))
    ensures SmallEnv().dumps(TupleOf(Small(letter, time, kind))) == SmallBlob(letter, time, kind)
  {
    EnvelopeRoundTrip(Small(letter, time, kind));
  }

  lemma {:induction false} SmallReloads(o: PyObj)
    requires o.Nil? || IsSmall(o)
    ensures var b := SmallDumps(o); SmallLoad(b) == Loaded(o, |b|) && |b| > 0 && b[0] == PROTO
  {
    if IsSmall(o) { TupleRoundTrip(o); }
  }

  lemma {:induction false} SmallIsLawful()
    ensures Lawful(SmallEnv())
  {
    var env := SmallEnv();
    forall o | env.storable(o)
      ensures env.load(env.dumps(o)) == Loaded(o, |env.dumps(o)|) && |env.dumps(o)| > 0 && env.dumps(o)[0] == PROTO
    { SmallReloads(o); }
    forall b: bytes | env.load(b).Loaded?
      ensures env.storable(env.load(b).obj) && |env.dumps(env.load(b).obj)| < U32
    {
      if b != NilBlob() { SmallIsSmall(b[1], b[2], KindOf(b[3])); }
    }
  }

  /** An environment in which every small record can be written and read back is lawful. */
  lemma {:induction false} HypothesesCanHold(letter: byte, time: byte, kind: Kind)
    ensures Lawful(SmallEnv()) && Faithful(SmallEnv(), Small(letter, time, kind))
  {
    SmallIsLawful();
    SmallIsSmall(letter, time, kind);
    StoredIsFaithful(SmallEnv(), Small(letter, time, kind));
  }

  /** What a `set` of `None` would append is a small record: spilled when the two bytes of its pickle are
      `minFileSize` or more, inline otherwise. */
  lemma {:induction false} SetRecordIsSmall(letter: byte, time: byte, minFileSize: int)
    ensures RecordFor(SmallEnv(), "p", minFileSize, [letter as char], Nil, None, time)
            == Small(letter, time, if minFileSize <= 2 then InPool else Plain)
    ensures Writable(SmallEnv(), "p", minFileSize, [letter as char], Nil, None, time)
    ensures minFileSize > 2 ==>
              && RecordFor(SmallEnv(), "p", minFileSize, [letter as char], Nil, Some(1), time)
                 == Small(letter, time, Fleeting)
              && Writable(SmallEnv(), "p", minFileSize, [letter as char], Nil, Some(1), time)
    ensures Tombstone([letter as char], time) == Small(letter, time, Deletion)
    ensures Encodable(SmallEnv(), Tombstone([letter as char], time))
  {
    SmallIsSmall(letter, time, if minFileSize <= 2 then InPool else Plain);
    SmallIsSmall(letter, time, Fleeting);
    SmallIsSmall(letter, time, Deletion);
  }

  /** In that environment a `set` succeeds, inline and spilled. */
  method SetSucceeds(letter: byte, time: byte, minFileSize: int) returns (c: LogCache, outcome: SetOutcome)
    ensures c.Valid() && outcome == Stored(Nothing)
    ensures c.dir.logs == Appended(SmallEnv(), map[], "a.log",
                                   Small(letter, time, if minFileSize <= 2 then InPool else Plain), time)
    ensures minFileSize <= 2 ==> POOL_FILE in c.dir.pool && c.dir.pool[POOL_FILE].data == NilBlob()
  {
    SmallIsLawful();
    SetRecordIsSmall(letter, time, minFileSize);
    hide Lawful, Indexable;
    var dir := new PrefixDir();
    c := new LogCache(SmallEnv(), dir, "p", "a.log", n => false, 10, minFileSize, 1000);
    NarrowIsIndexable(SmallEnv(), map[], "a.log", time);
    outcome := c.Set([letter as char], Nil, None, time, time, 0);
  }
}
