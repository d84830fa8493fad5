/**
 Records and their pickled form.

 Pickle, md5 and sha256 are not modelled: an `Env` carries them as arbitrary functions of one
 Python environment, and `Lawful` states what the store relies on.  Times are integer ticks of
 the wall clock, of which only order, sums and differences matter.
 */
module Pickle {
  import opened Bytes
  import opened Options

  /** Python's `bool` is an `int`, so a flag is an acceptable number. */
  datatype Number = Flag(b: bool) | Ticks(t: int) {
    function At(): int {
      match this
      case Flag(b) => if b then 1 else 0
      case Ticks(t) => t
    }
  }

  datatype PyObj =
    | Nil
    | Num(n: Number)
    | Str(s: string)
    | Tuple(items: seq<PyObj>)
    | Other(tag: nat)

  /** A value this environment can build, or the whole blob of a frame it could not decode. */
  datatype Payload = Inline(v: PyObj) | Opaque(blob: bytes)

  datatype Record = Record(
    key: string,
    value: Payload,
    expireTime: Option<Number>,
    storeTime: Number,
    deleted: bool,
    spill: Option<string>)
  {
    function Time(): int { storeTime.At() }

    /** An empty spill path is falsy, so such a record holds its value inline. */
    predicate Spilled() { spill.Some? && spill.value != "" }

    predicate LiveAt(now: int) {
      !deleted && (expireTime.None? || expireTime.value.At() >= now)
    }
  }

  datatype LoadOutcome = Raised | Loaded(obj: PyObj, consumed: nat)

  datatype SalvageOutcome = Unsalvageable | Salvaged(obj: PyObj, consumed: nat, missing: set<string>)

  datatype Env = Env(
    storable: PyObj -> bool,            // `pickle.dumps` succeeds and `load` can undo it
    dumps: PyObj -> bytes,
    load: bytes -> LoadOutcome,         // `pickle.Unpickler(...).load()`
    salvage: bytes -> SalvageOutcome,   // the same with stubs for unimportable globals
    digest: string -> bytes,            // md5 of the key
    sha: bytes -> string)               // sha256 of a spilled value, as hex

  const PROTO: byte := 0x80

  /** What one lone environment promises: stored objects load back exactly, whatever loads can be
      stored again within the frame limit, and digests are 16 bytes long. */
  ghost predicate Lawful(env: Env) {
    && (forall o {:trigger env.dumps(o)} :: env.storable(o) ==>
          && env.load(env.dumps(o)) == Loaded(o, |env.dumps(o)|)
          && |env.dumps(o)| > 0 && env.dumps(o)[0] == PROTO)
    && (forall b: bytes {:trigger env.load(b)} :: |b| < U32 && env.load(b).Loaded? && env.load(b).consumed == |b| ==>
          env.storable(env.load(b).obj))
    && (forall b: bytes, o {:trigger env.load(b), env.dumps(o)} :: |b| < U32 && env.load(b) == Loaded(o, |b|) ==>
          |env.dumps(o)| < U32)
    && DigestShape(env)
  }

  ghost predicate DigestShape(env: Env) {
    forall k :: |env.digest(k)| == 16
  }

  function NumberOf(o: PyObj): (n: Option<Number>) {
    if o.Num? then Some(o.n) else None
  }

  /** `_valid_envelope`: a 6-tuple with the right types in every field but the value. */
  predicate ValidEnvelope(o: PyObj) {
    && o.Tuple? && |o.items| == 6
    && o.items[0].Str?
    && (o.items[2].Nil? || o.items[2].Num?)
    && o.items[3].Num?
    && o.items[4].Num? && o.items[4].n.Flag?
    && (o.items[5].Nil? || o.items[5].Str?)
  }

  function EnvelopeOf(o: PyObj, payload: Payload): Record
    requires ValidEnvelope(o)
  {
    Record(o.items[0].s, payload, NumberOf(o.items[2]), o.items[3].n, o.items[4].n.b,
           if o.items[5].Str? then Some(o.items[5].s) else None)
  }

  /** `tuple(rec)`: the object `_frame` pickles. */
  function TupleOf(r: Record): PyObj
    requires r.value.Inline?
  {
    Tuple([Str(r.key), r.value.v,
           if r.expireTime.Some? then Num(r.expireTime.value) else Nil,
           Num(r.storeTime), Num(Flag(r.deleted)),
           if r.spill.Some? then Str(r.spill.value) else Nil])
  }

  /** Decode one blob: strictly, or else by salvaging the envelope of an import-skewed record. */
  function ParseBlob(env: Env, blob: bytes): (r: Option<Record>)
    ensures r.Some? && r.value.value.Opaque? ==> r.value.value.blob == blob
  {
    match env.load(blob)
    case Raised => (
      match env.salvage(blob)
      case Unsalvageable => None
      case Salvaged(obj, consumed, missing) =>
        if consumed != |blob| || missing == {} || !ValidEnvelope(obj) then None
        else Some(EnvelopeOf(obj, Opaque(blob)))
    )
    case Loaded(obj, consumed) =>
      if consumed != |blob| || !ValidEnvelope(obj) then None
      else Some(EnvelopeOf(obj, Inline(obj.items[1])))
  }

  /** The blob of a record's frame: an opaque record keeps the bytes it was read from. */
  function BlobOf(env: Env, r: Record): bytes {
    match r.value
    case Opaque(blob) => blob
    case Inline(_) => env.dumps(TupleOf(r))
  }

  /** A record whose frame can be written and read back in this environment. */
  predicate Faithful(env: Env, r: Record): (ok: bool)
    ensures ok ==> |BlobOf(env, r)| < U32
  {
    |BlobOf(env, r)| < U32 && ParseBlob(env, BlobOf(env, r)) == Some(r)
  }

  lemma {:induction false} EnvelopeRoundTrip(r: Record)
    requires r.value.Inline?
    ensures ValidEnvelope(TupleOf(r)) && EnvelopeOf(TupleOf(r), r.value) == r
  {}

  lemma {:induction false} TupleRoundTrip(o: PyObj)
    requires ValidEnvelope(o)
    ensures TupleOf(EnvelopeOf(o, Inline(o.items[1]))) == o
  {
    var r := EnvelopeOf(o, Inline(o.items[1]));
    assert TupleOf(r).items == o.items;
  }

  /** A record freshly made by `set` or `delete` is faithful once pickle accepts it. */
  lemma {:induction false} StoredIsFaithful(env: Env, r: Record)
    requires Lawful(env) && r.value.Inline?
    requires env.storable(TupleOf(r)) && |env.dumps(TupleOf(r))| < U32
    ensures Faithful(env, r)
  {
    EnvelopeRoundTrip(r);
  }

  /** Whatever a scan can read, a rewrite can write: decoded records re-pickle to an equal record,
      opaque ones keep their bytes. */
  lemma {:induction false} ParsedIsFaithful(env: Env, blob: bytes)
    requires Lawful(env) && |blob| < U32
    requires ParseBlob(env, blob).Some?
    ensures Faithful(env, ParseBlob(env, blob).value)
  {
    var r := ParseBlob(env, blob).value;
    if r.value.Inline? {
      TupleRoundTrip(env.load(blob).obj);
    }
  }
}
