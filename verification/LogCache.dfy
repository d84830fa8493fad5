/** One process's `LogCache` over one prefix directory that other processes may share. */
module LogCaches {
  import opened Bytes
  import opened Options
  import opened Expiry
  import opened Order
  import opened Pickle
  import opened Frames
  import opened ScanFacts
  import opened Fold
  import opened Store
  import opened Index
  import opened Reading
  import opened Compaction
  import opened Consolidation
  import opened Passes

  const COOLDOWN: int := 60 * SECOND

  /** The prefix directory: everything in it may change under any process. */
  class PrefixDir {
    var logs: map<string, LogFile>
    var pool: map<string, PoolFile>

    constructor ()
      ensures logs == map[] && pool == map[]
    {
      logs, pool := map[], map[];
    }

    function View(): Dir
      reads this
    {
      Dir(logs, pool)
    }
  }

  /** Digests tell the key and the items' keys apart. */
  ghost predicate Distinguishes(env: Env, keys: set<string>, key: string, items: seq<Located>) {
    CollisionFree(env, keys) && key in keys && forall x :: x in items ==> x.rec.key in keys
  }

  // ------------------------------------------------------------------ what the writes write

  /** The path of a pool file: its content's hash under the prefix's pool. */
  function PoolPath(env: Env, prefix: string, blob: bytes): string {
    prefix + "/spill/" + env.sha(blob) + ".val"
  }

  /** `_spill_write`: an existing file of the right size is only touched, anything else is replaced. */
  function Spilled(env: Env, prefix: string, pool: map<string, PoolFile>, blob: bytes, now: int)
    : map<string, PoolFile>
  {
    var rel := PoolPath(env, prefix, blob);
    if rel in pool && |pool[rel].data| == |blob| then pool[rel := pool[rel].(touched := now)]
    else pool[rel := PoolFile(blob, now)]
  }

  /** The expiry a record carries. */
  function ExpiryOf(expire: Option<int>, now: int): Option<Number> {
    match ExpiryTime(expire, now)
    case Some(t) => Some(Ticks(t))
    case None => None
  }

  /** The record `set` appends. */
  function RecordFor(env: Env, prefix: string, minFileSize: int, key: string, value: PyObj, expire: Option<int>,
                     now: int): Record {
    var blob := env.dumps(value);
    if |blob| >= minFileSize then
      Record(key, Inline(Nil), ExpiryOf(expire, now), Ticks(now), false, Some(PoolPath(env, prefix, blob)))
    else
      Record(key, Inline(value), ExpiryOf(expire, now), Ticks(now), false, None)
  }

  function Tombstone(key: string, now: int): Record {
    Record(key, Inline(Nil), None, Ticks(now), true, None)
  }

  /** `pickle.dumps` and the frame header accept the record. */
  predicate Encodable(env: Env, r: Record)
    requires r.value.Inline?
  {
    env.storable(TupleOf(r)) && |env.dumps(TupleOf(r))| < U32
  }

  /** The own log with one more frame. */
  function Appended(env: Env, logs: map<string, LogFile>, own: string, r: Record, now: int)
    : (after: map<string, LogFile>)
    requires |BlobOf(env, r)| < U32
    ensures own in after
  {
    if own in logs then logs[own := LogFile(logs[own].data + Frame(env, r), logs[own].readable, now)]
    else logs[own := LogFile(Frame(env, r), true, now)]
  }

  /** `_fold_own_append`: own writes are visible at once through the overlay. */
  function FoldedIn(env: Env, ix: PackedIndex, own: string, r: Record, offset: nat, length: nat): PackedIndex {
    ix.(overlay := ix.overlay[env.digest(r.key) := if r.deleted then Deleted else At(Location(own, offset, length))])
  }

  /** `_current_sig`: the size of every log that can be stat'ed. */
  function Sizes(logs: map<string, LogFile>): map<string, nat> {
    map n | n in logs && logs[n].readable :: |logs[n].data|
  }

  function SizeOf(logs: map<string, LogFile>, own: string): nat {
    if own in logs then |logs[own].data| else 0
  }

  /** The auto-maintenance of a `set`. */
  datatype Upkeep = Nothing | Compacting | Consolidating

  /** How a `set` ends: it raised with nothing appended; it stored the record and did its upkeep; or it
      stored the record and raised because the compaction could not read the log back. */
  datatype SetOutcome = Refused | Stored(upkeep: Upkeep) | Unkempt {
    /** The upkeep carried out. */
    function Done(): Upkeep {
      if Stored? then upkeep else Nothing
    }
  }

  /** What the upkeep leaves of the directory. */
  function KeptUp(env: Env, dir: Dir, own: string, conflicts: set<string>, upkeep: Upkeep, now: int): Dir
    requires Lawful(env) && own in dir.logs && (upkeep.Compacting? ==> dir.logs[own].readable)
  {
    match upkeep
    case Nothing => dir
    case Compacting => dir.(logs := dir.logs[own := LogFile(CompactLog(env, own, dir.logs[own].data, now), true, now)])
    case Consolidating => Consolidated(env, dir, own, {}, conflicts, now)
  }

  /** `pickle.dumps` accepts the value, and then the record that a `set` makes of it. */
  ghost predicate Writable(env: Env, prefix: string, minFileSize: int, key: string, value: PyObj, expire: Option<int>,
                           now: int)
  {
    env.storable(value) && Encodable(env, RecordFor(env, prefix, minFileSize, key, value, expire, now))
  }

  /** What a cache remembers besides the index itself: whether there is one, the log sizes it was built from, when
      it was last checked against them, and when the last whole pass ran. */
  datatype Known = Known(indexed: bool, sizes: Option<map<string, nat>>, checked: Option<int>, passed: Option<int>)
  {
    /** The sizes that an append goes on from. */
    function Sig(): map<string, nat> {
      if sizes.Some? then sizes.value else map[]
    }

    /** The index dropped, with all that belongs to it. */
    function Forgotten(): Known {
      Known(false, None, None, passed)
    }
  }

  /** The directory, and what one cache remembers of it. */
  datatype Moment = Moment(dir: Dir, known: Known)

  /** A cache answer: the call raised, found nothing (and gives the caller's default), or a value. */
  datatype Answer = Raises | Default | Value(v: PyObj)

  class LogCache {
    const env: Env
    const dir: PrefixDir
    const prefix: string
    const own: string                     // this writer's log
    const isConflict: string -> bool      // names of syncer-minted conflict copies
    const indexTtl: int
    const minFileSize: int
    const maxLogBytes: int

    var index: Option<PackedIndex>
    var sig: Option<map<string, nat>>
    var checked: Option<int>
    var consolidatedAt: Option<int>

    constructor (env: Env, dir: PrefixDir, prefix: string, own: string, isConflict: string -> bool,
                 indexTtl: int, minFileSize: int, maxLogBytes: int)
      requires Lawful(env)
      ensures Valid() && index.None?
      ensures this.env == env && this.dir == dir && this.prefix == prefix && this.own == own
      ensures this.isConflict == isConflict && this.indexTtl == indexTtl
      ensures this.minFileSize == minFileSize && this.maxLogBytes == maxLogBytes
    {
      this.env, this.dir, this.prefix, this.own, this.isConflict := env, dir, prefix, own, isConflict;
      this.indexTtl, this.minFileSize, this.maxLogBytes := indexTtl, minFileSize, maxLogBytes;
      index, sig, checked, consolidatedAt := None, None, None, None;
    }

    /** What holds whatever other processes do to the directory. */
    ghost predicate Valid()
      reads this
    {
      Lawful(env) && (index.Some? ==> WellShaped(index.value))
    }

    function ConflictsIn(logs: map<string, LogFile>): set<string> {
      set n | n in logs && isConflict(n)
    }

    function Knows(): Known
      reads this
    {
      Known(index.Some?, sig, checked, consolidatedAt)
    }

    function Now(): Moment
      reads this, dir
    {
      Moment(dir.View(), Knows())
    }

    /** The index a call goes through: a fresh build when the one at hand is outdated, and else that one. */
    ghost predicate Usable(ix: PackedIndex, before: Option<PackedIndex>, outdated: bool, logs: map<string, LogFile>,
                           now: int)
    {
      if outdated then IsFresh(env, AllItems(env, logs), now, ix) else before == Some(ix)
    }

    // ---------------------------------------------------------------- index

    /** The index at hand is to be checked against the disk: there is none, or the TTL is off or over. */
    predicate Rechecks(k: Known, mono: int) {
      !k.indexed || indexTtl <= 0 || mono - (if k.checked.Some? then k.checked.value else 0) >= indexTtl
    }

    /** The check finds logs of other sizes than the index was built from. */
    predicate Outdated(s: Moment, mono: int) {
      Rechecks(s.known, mono) && (!s.known.indexed || s.known.sizes != Some(Sizes(s.dir.logs)))
    }

    /** The index has to be built again, and cannot be. */
    ghost predicate Blocked(s: Moment, wall: int, mono: int) {
      Outdated(s, mono) && !Indexable(env, s.dir.logs, wall)
    }

    /** What the cache remembers after its look at the index. */
    ghost function Checking(s: Moment, wall: int, mono: int): Known {
      var k := s.known;
      if Blocked(s, wall, mono) then k.(checked := Some(mono))
      else Known(true, if Outdated(s, mono) then Some(Sizes(s.dir.logs)) else k.sizes,
                 if Rechecks(k, mono) then Some(mono) else k.checked, k.passed)
    }

    method EnsureIndex(wall: int, mono: int) returns (ok: bool)
      requires Valid()
      modifies this`index, this`sig, this`checked
      ensures Valid()
      ensures ok <==> !Blocked(old(Now()), wall, mono)
      ensures ok ==> index.Some? && Usable(index.value, old(index), old(Outdated(Now(), mono)), dir.logs, wall)
      ensures !ok ==> index == old(index)
      ensures Knows() == Checking(old(Now()), wall, mono)
    {
      hide IsFresh, AllItems, WellShaped, Indexable;
      var last := if checked.Some? then checked.value else 0;
      if index.Some? && indexTtl > 0 && mono - last < indexTtl {
        return true;
      }
      checked := Some(mono);
      var sizes := Sizes(dir.logs);
      if index.Some? && sig == Some(sizes) {
        return true;
      }
      var built := Build(env, dir.logs, wall);
      if built.None? {
        return false;
      }
      FreshShape(env, AllItems(env, dir.logs), wall, built.value);
      index, sig := built, Some(sizes);
      ok := true;
    }

    // ---------------------------------------------------------------- get

    /** `_shard_get`: one attempt through the index.  A rebuild reads the clock again, as `wall`. */
    method ShardGet(key: string, now: int, wall: int, mono: int) returns (ok: bool, outcome: Outcome)
      requires Valid()
      modifies this`index, this`sig, this`checked
      ensures Valid()
      ensures ok <==> !Blocked(old(Now()), wall, mono)
      ensures ok ==> index.Some? && Usable(index.value, old(index), old(Outdated(Now(), mono)), dir.logs, wall)
      ensures ok ==> outcome == OutcomeAt(env, dir.logs, dir.pool, key, Index.Find(index.value, env.digest(key)), now)
      ensures !ok ==> index == old(index)
      ensures Knows() == Checking(old(Now()), wall, mono)
    {
      hide IsFresh, AllItems, Indexable, Outdated;
      ok := EnsureIndex(wall, mono);
      if !ok {
        return false, Missing;
      }
      var loc := Lookup(index.value, env.digest(key));
      if loc.None? {
        return true, Missing;
      }
      var rec := ReadVerified(env, dir.logs, key, loc.value);
      if rec.None? {
        return true, Stale;
      }
      var v := Serve(env, dir.pool, rec.value, now);
      outcome := if v.None? then Missing else Hit(v.value);
    }

    /** The scan answer as an answer of the cache. */
    function ScanAnswerHere(logs: map<string, LogFile>, pool: map<string, PoolFile>, key: string, now: int): Answer
    {
      match ScanAnswer(env, logs, pool, key, now)
      case None => Default
      case Some(v) => Value(v)
    }

    /** `get`: at most one rebuild and retry.  The lock is released between the attempts, so others may
        leave the directory as `meanwhile` before the second one.  Each attempt reads the clock, and a
        rebuild reads it once more. */
    method Get(key: string, now: int, wall: int, mono: int, meanwhile: Dir, now2: int, wall2: int, mono2: int)
      returns (answer: Answer, retried: bool)
      requires Valid()
      modifies this`index, this`sig, this`checked, dir
      ensures Valid()
      ensures dir.View() == if retried then meanwhile else old(dir.View())
      // Sound whatever was done to the logs and whatever the digests collide with.
      ensures answer.Value? && !retried ==> exists loc :: ServedFrom(env, dir.logs, dir.pool, key, now, answer.v, loc)
      ensures answer.Value? && retried ==> exists loc :: ServedFrom(env, dir.logs, dir.pool, key, now2, answer.v, loc)
      // Exact after the rebuild, and at once when the check finds the logs moved.
      ensures forall keys ::
                retried && answer != Raises && now2 <= wall2
                  && Distinguishes(env, keys, key, AllItems(env, dir.logs)) ==>
                  answer == ScanAnswerHere(dir.logs, dir.pool, key, wall2)
      ensures forall keys ::
                old(Outdated(Now(), mono)) && !retried && answer != Raises && now <= wall
                && Distinguishes(env, keys, key, AllItems(env, dir.logs)) ==>
                  answer == ScanAnswerHere(dir.logs, dir.pool, key, wall)
      // The first attempt goes through a fresh index when the one at hand is outdated, and else through that one.
      ensures !retried && answer != Raises ==>
                && index.Some? && Usable(index.value, old(index), old(Outdated(Now(), mono)), dir.logs, wall)
                && var o := OutcomeAt(env, dir.logs, dir.pool, key, Index.Find(index.value, env.digest(key)), now);
                   !o.Stale? && answer == (if o.Hit? then Value(o.v) else Default)
      ensures retried && answer != Raises ==> index.Some? && IsFresh(env, AllItems(env, dir.logs), wall2, index.value)
      ensures retried ==>
                && !Blocked(old(Now()), wall, mono)
                && exists ix ::
                     && Usable(ix, old(index), old(Outdated(Now(), mono)), old(dir.logs), wall) && WellShaped(ix)
                     && OutcomeAt(env, old(dir.logs), old(dir.pool), key, Index.Find(ix, env.digest(key)), now).Stale?
      // It raises exactly when the index has to be built and cannot be.
      ensures answer == Raises <==>
                if retried then !Indexable(env, dir.logs, wall2) else Blocked(old(Now()), wall, mono)
      ensures answer == Raises ==> index == if retried then None else old(index)
      ensures Knows() == if retried then Checking(Moment(meanwhile, old(Knows()).Forgotten()), wall2, mono2)
                         else Checking(old(Now()), wall, mono)
    {
      hide IsFresh, AllItems, Indexable, OutcomeAt, ServedFrom, CollisionFree, Sizes;
      retried := false;
      var ok, outcome := ShardGet(key, now, wall, mono);
      if !ok {
        return Raises, false;
      }
      HitIsServed(env, dir.logs, dir.pool, key, Index.Find(index.value, env.digest(key)), now);
      forall keys | old(Outdated(Now(), mono)) && now <= wall && Distinguishes(env, keys, key, AllItems(env, dir.logs))
        ensures (if outcome.Hit? then Value(outcome.v) else Default) == ScanAnswerHere(dir.logs, dir.pool, key, wall)
      {
        FreshReadIsScan(env, dir.logs, dir.pool, now, wall, index.value, keys, key);
      }
      if outcome.Missing? {
        return Default, false;
      }
      if outcome.Hit? {
        return Value(outcome.v), false;
      }
      ghost var stale := index.value;
      index, sig, checked := None, None, None;
      retried := true;
      dir.logs, dir.pool := meanwhile.logs, meanwhile.pool;
      ok, outcome := ShardGet(key, now2, wall2, mono2);
      if !ok {
        return Raises, true;
      }
      HitIsServed(env, dir.logs, dir.pool, key, Index.Find(index.value, env.digest(key)), now2);
      forall keys | now2 <= wall2 && Distinguishes(env, keys, key, AllItems(env, dir.logs))
        ensures (if outcome.Hit? then Value(outcome.v) else Default) == ScanAnswerHere(dir.logs, dir.pool, key, wall2)
      {
        FreshReadIsScan(env, dir.logs, dir.pool, now2, wall2, index.value, keys, key);
      }
      answer := if outcome.Hit? then Value(outcome.v) else Default;
    }

    // ---------------------------------------------------------------- set

    /** `_append` and `_fold_own_append`. */
    method Append(r: Record, now: int) returns (size: nat)
      requires Valid() && Faithful(env, r)
      modifies this`index, this`sig, dir`logs
      ensures Valid()
      ensures dir.logs == Appended(env, old(dir.logs), own, r, now)
      ensures own in dir.logs && size == |dir.logs[own].data| == SizeOf(old(dir.logs), own) + HEADER + |BlobOf(env, r)|
      ensures index == if old(index).None? then None
                       else Some(FoldedIn(env, old(index).value, own, r, SizeOf(old(dir.logs), own),
                                          FrameLength(env, r)))
      ensures Knows() == old(Knows()).(sizes := Some(old(Knows()).Sig()[own := size]))
    {
      hide WellShaped, Lawful;
      var frame := Frame(env, r);
      dir.logs := Appended(env, dir.logs, own, r, now);
      size := |dir.logs[own].data|;
      var offset := size - |frame|;
      if index.Some? {
        OverlayKeepsShape(index.value, FoldedIn(env, index.value, own, r, offset, size - offset));
        index := Some(FoldedIn(env, index.value, own, r, offset, size - offset));
      }
      sig := Some((if sig.Some? then sig.value else map[])[own := size]);
    }

    /** What a `set` that leaves the own log `size` bytes long has to do: nothing below the limit; above it
        a whole pass when no other writer's log is known and the last pass is long enough ago, and else a
        compaction. */
    function Due(k: Known, size: nat, mono: int): Upkeep {
      if size <= maxLogBytes then Nothing
      else if |set n | n in k.Sig()[own := size] && !isConflict(n)| <= 1
              && (k.passed.None? || mono - k.passed.value > COOLDOWN) then Consolidating
      else Compacting
    }

    /** How the upkeep ends: only a compaction raises, when it cannot read the log back. */
    function Ending(due: Upkeep, readable: bool): SetOutcome {
      if due.Compacting? && !readable then Unkempt else Stored(due)
    }

    /** What the cache remembers after the upkeep. */
    function Upkept(k: Known, due: Upkeep, readable: bool, mono: int): Known {
      match due
      case Nothing => k
      case Compacting => if readable then k.(indexed := false, sizes := None) else k
      case Consolidating => (if readable then k.Forgotten() else k).(passed := Some(mono))
    }

    /** The upkeep at the end of `set`. */
    method Maintain(size: nat, now: int, mono: int) returns (outcome: SetOutcome)
      requires Valid() && sig.Some? && own in sig.value && sig.value[own] == size && own in dir.logs
      modifies this, dir
      ensures Valid()
      ensures outcome == Ending(Due(old(Knows()), size, mono), old(dir.logs[own].readable))
      ensures dir.View() == KeptUp(env, old(dir.View()), own, ConflictsIn(old(dir.logs)), outcome.Done(), now)
      ensures index == if outcome == Stored(Nothing) || !old(dir.logs[own].readable) then old(index) else None
      ensures Knows() == Upkept(old(Knows()), Due(old(Knows()), size, mono), old(dir.logs[own].readable), mono)
    {
      hide Lawful, CompactLog, Consolidated, WellShaped;
      var cooled := consolidatedAt.None? || mono - consolidatedAt.value > COOLDOWN;
      if size > maxLogBytes {
        var canonical := |set n | n in sig.value && !isConflict(n)|;
        assert sig.value[own := size] == sig.value;
        if canonical <= 1 && cooled {
          Consolidate({}, now, mono);
          return Stored(Consolidating);
        }
        var compacted := CompactOwn(now);
        return if compacted then Stored(Compacting) else Unkempt;
      }
      outcome := Stored(Nothing);
    }

    /** The pool after the spill of a `set`. */
    function PoolAfter(pool: map<string, PoolFile>, value: PyObj, now: int): map<string, PoolFile> {
      var blob := env.dumps(value);
      if |blob| >= minFileSize then Spilled(env, prefix, pool, blob, now) else pool
    }

    /** How a `set` ends, and what it leaves.  It is refused when pickle or the frame header does not take the
        value or its record, or when the index has to be built and cannot be; else the record is appended and
        the upkeep follows. */
    ghost function SetEffect(s: Moment, key: string, value: PyObj, expire: Option<int>, now: int, later: int,
                             mono: int): (SetOutcome, Moment)
      requires Lawful(env)
    {
      if !env.storable(value) then (Refused, s)
      else
        var r := RecordFor(env, prefix, minFileSize, key, value, expire, now);
        var pool, k := PoolAfter(s.dir.pool, value, now), Checking(s, later, mono);
        if Blocked(s, later, mono) || !Encodable(env, r) then (Refused, Moment(Dir(s.dir.logs, pool), k))
        else
          var logs := Appended(env, s.dir.logs, own, r, later);
          var size, readable := SizeOf(logs, own), logs[own].readable;
          var due := Due(k, size, mono);
          (Ending(due, readable),
           Moment(KeptUp(env, Dir(logs, pool), own, ConflictsIn(logs), Ending(due, readable).Done(), later),
                  Upkept(k.(sizes := Some(k.Sig()[own := size])), due, readable, mono)))
    }

    /** The index after an append: the one the call went through, with the record folded in. */
    ghost predicate Overlaid(after: Option<PackedIndex>, before: Option<PackedIndex>, outdated: bool,
                             logs: map<string, LogFile>, r: Record, now: int)
    {
      exists ix :: Usable(ix, before, outdated, logs, now)
        && after == Some(FoldedIn(env, ix, own, r, SizeOf(logs, own), FrameLength(env, r)))
    }

    /** The part of `set` under the lock, up to the upkeep. */
    method AppendChecked(r: Record, now: int, mono: int) returns (ok: bool, size: nat)
      requires Valid() && r.value.Inline?
      modifies this`index, this`sig, this`checked, dir`logs
      ensures Valid()
      ensures ok <==> !Blocked(old(Now()), now, mono) && Encodable(env, r)
      ensures ok ==> dir.logs == Appended(env, old(dir.logs), own, r, now) && size == SizeOf(dir.logs, own)
      ensures ok ==> Overlaid(index, old(index), old(Outdated(Now(), mono)), old(dir.logs), r, now)
      ensures !ok ==> dir.logs == old(dir.logs)
      ensures !ok ==> if Blocked(old(Now()), now, mono) then index == old(index)
                      else index.Some? && Usable(index.value, old(index), old(Outdated(Now(), mono)), dir.logs, now)
      ensures var k := Checking(old(Now()), now, mono);
              Knows() == if ok then k.(sizes := Some(k.Sig()[own := size])) else k
    {
      hide Blocked, Checking, Lawful, Sizes, WellShaped, TupleOf, ParseBlob, Appended, Usable, Outdated;
      size := 0;
      ok := EnsureIndex(now, mono);
      if !ok || !Encodable(env, r) {
        return false, 0;
      }
      StoredIsFaithful(env, r) by { assert Lawful(env); }
      size := Append(r, now);
    }

    method Set(key: string, value: PyObj, expire: Option<int>, now: int, later: int, mono: int)
      returns (outcome: SetOutcome)
      requires Valid()
      modifies this, dir
      ensures Valid()
      ensures (outcome, Now()) == SetEffect(old(Now()), key, value, expire, now, later, mono)
      ensures outcome.Refused? ==>
                if !env.storable(value) || Blocked(old(Now()), later, mono) then index == old(index)
                else index.Some? && Usable(index.value, old(index), old(Outdated(Now(), mono)), dir.logs, later)
      ensures !outcome.Refused? && index.Some? ==>
                Overlaid(index, old(index), old(Outdated(Now(), mono)), old(dir.logs),
                         RecordFor(env, prefix, minFileSize, key, value, expire, now), later)
    {
      hide WellShaped, Lawful, Spilled, PoolPath, TupleOf, Sizes, Due, KeptUp, Appended, Usable, Checking, Blocked,
        Outdated, Overlaid, ExpiryOf;
      if !env.storable(value) {
        return Refused;
      }
      var blob := env.dumps(value);
      var r := RecordFor(env, prefix, minFileSize, key, value, expire, now);
      ghost var s := Now();
      if |blob| >= minFileSize {
        dir.pool := Spilled(env, prefix, dir.pool, blob, now);
      }
      IgnoresPool(s, Now(), later, mono);
      var ok, size := AppendChecked(r, later, mono);
      if !ok {
        return Refused;
      }
      ghost var k := Checking(s, later, mono);
      SizeKnown(k, size, mono);
      outcome := Maintain(size, later, mono);
    }

    /** The look at the index does not depend on the pool. */
    lemma {:induction false} IgnoresPool(a: Moment, b: Moment, wall: int, mono: int)
      requires a.dir.logs == b.dir.logs && a.known == b.known
      ensures Outdated(a, mono) == Outdated(b, mono) && Blocked(a, wall, mono) == Blocked(b, wall, mono)
      ensures Checking(a, wall, mono) == Checking(b, wall, mono)
    {}

    lemma {:induction false} SizeKnown(k: Known, size: nat, mono: int)
      ensures Due(k.(sizes := Some(k.Sig()[own := size])), size, mono) == Due(k, size, mono)
    {
      assert k.Sig()[own := size][own := size] == k.Sig()[own := size];
    }

    // ---------------------------------------------------------------- compact, consolidate

    /** `_compact_prefix`: nothing when the log is missing; raises when it cannot be read. */
    method CompactOwn(now: int) returns (ok: bool)
      requires Valid()
      modifies this`index, this`sig, dir`logs
      ensures Valid()
      ensures ok <==> own !in Unread(old(dir.logs))
      ensures own !in old(dir.logs) || own in Unread(old(dir.logs)) ==> dir.logs == old(dir.logs) && index == old(index)
      ensures own in old(dir.logs) && own !in Unread(old(dir.logs)) ==>
                && index.None?
                && dir.logs == old(dir.logs)[own :=
                     LogFile(CompactLog(env, own, old(dir.logs)[own].data, now), true, now)]
      ensures Knows() == if own in old(dir.logs) && own !in Unread(old(dir.logs))
                         then old(Knows()).(indexed := false, sizes := None) else old(Knows())
    {
      hide Lawful, CompactLog;
      if own !in dir.logs {
        return true;
      }
      if !dir.logs[own].readable {
        return false;
      }
      var out := Compact(env, own, dir.logs[own].data, now);
      dir.logs := dir.logs[own := LogFile(out, true, now)];
      index, sig := None, None;
      ok := true;
    }

    /** `_consolidate_prefix`; `prune` holds the log names of the writers asserted dead. */
    method Consolidate(prune: set<string>, now: int, mono: int)
      requires Valid()
      modifies this, dir
      ensures Valid()
      ensures dir.View() == Consolidated(env, old(dir.View()), own, prune, ConflictsIn(old(dir.logs)), now)
      ensures index == if own in Unread(old(dir.logs)) then old(index) else None
      ensures Knows() == Upkept(old(Knows()), Consolidating, own !in Unread(old(dir.logs)), mono)
    {
      hide Lawful, AllFaithful, KeepOf, Ours, Resolved;
      var snapshot := map n | n in dir.logs :: Identity(dir.logs[n]);
      var conflicts := ConflictsIn(dir.logs);
      var fold := FoldEligible(prune, conflicts, own);
      var keep, unread := CollectLive(env, dir.logs, now);
      if own in unread {
        consolidatedAt := Some(mono);
        return;
      }
      var ours := Ours(keep, own, fold);
      var consolidated, absent := ResolveSpills(ours, dir.pool);
      var keepSources := unread + (conflicts * absent);
      ConsolidatedAreFaithful(env, dir.logs, dir.pool, own, fold, now);
      var written := dir.logs - {own};
      if consolidated != [] {
        var out := WriteFrames(env, RecordsIn(consolidated));
        written := dir.logs[own := LogFile(out, true, now)];
      }
      var pruned := PruneSources(written, snapshot, own, keepSources, fold);
      ghost var gone := Folded(dir.logs, own, fold, conflicts, absent);
      assert pruned == written - gone by {
        assert forall n :: n in written ==>
            (Doomed(n, written, snapshot, own, keepSources, fold) <==> n in gone);
      }
      var swept := Sweep(dir.pool, KeptSpills(keep, consolidated, own, fold), unread, now);
      dir.logs, dir.pool := pruned, swept;
      index, sig, checked := None, None, None;
      consolidatedAt := Some(mono);
    }

    // ---------------------------------------------------------------- delete, clear, iterate

    /** `delete`: tombstone a key whose recorded frame is live; says whether it was.  It raises exactly when
        the index has to be built and cannot be, or when the tombstone of a live frame cannot be written. */
    method Delete(key: string, now: int, wall: int, mono: int) returns (ok: bool, deleted: bool)
      requires Valid()
      modifies this`index, this`sig, this`checked, dir`logs
      ensures Valid()
      ensures Blocked(old(Now()), wall, mono) ==> !ok && index == old(index)
      ensures !Blocked(old(Now()), wall, mono) ==>
                exists ix :: Usable(ix, old(index), old(Outdated(Now(), mono)), old(dir.logs), wall) && WellShaped(ix)
                  && var live := LiveAtPlace(env, old(dir.logs), key, Index.Find(ix, env.digest(key)), now);
                     && (ok <==> !live || Encodable(env, Tombstone(key, now))) && (deleted <==> ok && live)
                     && index == Some(if deleted
                                      then FoldedIn(env, ix, own, Tombstone(key, now), SizeOf(old(dir.logs), own),
                                                    FrameLength(env, Tombstone(key, now)))
                                      else ix)
      // Exact when the check finds the logs moved.
      ensures forall keys ::
                !Blocked(old(Now()), wall, mono) && old(Outdated(Now(), mono)) && now <= wall
                && Distinguishes(env, keys, key, AllItems(env, old(dir.logs))) ==>
                  var live := AnswerAt(AllItems(env, old(dir.logs)), key, wall).Some?;
                  (ok <==> !live || Encodable(env, Tombstone(key, now))) && (deleted <==> ok && live)
      ensures deleted ==> ok && Encodable(env, Tombstone(key, now))
      ensures dir.logs ==
                if deleted then Appended(env, old(dir.logs), own, Tombstone(key, now), wall) else old(dir.logs)
      ensures var k := Checking(old(Now()), wall, mono);
              Knows() == if deleted then k.(sizes := Some(k.Sig()[own := SizeOf(dir.logs, own)])) else k
    {
      hide IsFresh, AllItems, Indexable, WellShaped, Lawful, ReadVerified, Winner, Sizes, CollisionFree;
      deleted := false;
      ok := EnsureIndex(wall, mono);
      if !ok {
        return;
      }
      ghost var ix := index.value;
      forall keys | old(Outdated(Now(), mono)) && now <= wall && Distinguishes(env, keys, key, AllItems(env, dir.logs))
        ensures LiveAtPlace(env, dir.logs, key, Index.Find(ix, env.digest(key)), now)
                <==> AnswerAt(AllItems(env, dir.logs), key, wall).Some?
      { FreshLiveIsScan(env, dir.logs, now, wall, ix, keys, key); }
      var loc := Lookup(index.value, env.digest(key));
      if loc.None? {
        return;
      }
      var rec := ReadVerified(env, dir.logs, key, loc.value);
      if rec.None? || !rec.value.LiveAt(now) {
        return;
      }
      var t := Tombstone(key, now);
      if !Encodable(env, t) {
        return false, false;
      }
      StoredIsFaithful(env, t) by { assert Lawful(env); }
      var _ := Append(t, wall);
      deleted := true;
    }

    /** `clear`: drop this writer's log, unless it cannot be read; says how many live records went. */
    method Clear(now: int) returns (dropped: nat)
      requires Valid()
      modifies this`index, this`sig, this`checked, dir`logs
      ensures Valid() && Knows() == old(Knows()).Forgotten()
      ensures own in Unread(old(dir.logs)) ==> dir.logs == old(dir.logs) && dropped == 0
      ensures own !in Unread(old(dir.logs)) ==> dir.logs == old(dir.logs) - {own}
      ensures own in old(dir.logs) && own !in Unread(old(dir.logs)) ==>
                dropped == |Kept(env, own, old(dir.logs)[own].data, now)|
      ensures own !in old(dir.logs) ==> dropped == 0
    {
      hide ScanLog, Latest, StableSort, Lawful;
      dropped := 0;
      if own in dir.logs && dir.logs[own].readable {
        var latest := FoldLog(env, own, dir.logs[own].data, [], []) by { NothingFolded(); }
        assert [] + ScanLog(env, own, dir.logs[own].data) == ScanLog(env, own, dir.logs[own].data);
        dropped := |LiveOnes(latest, now)|;
        SortLength(LiveOnes(latest, now));
      }
      if own !in dir.logs || dir.logs[own].readable {
        dir.logs := dir.logs - {own};
      }
      index, sig, checked := None, None, None;
    }

    /** `_iter_live`: every live winner of a disk-fresh scan. */
    method IterLive(now: int) returns (records: seq<Located>)
      requires Valid()
      ensures forall x :: x in records <==>
                Winner(AllItems(env, dir.logs), x.rec.key) == Some(x) && x.rec.LiveAt(now)
      ensures DistinctKeys(records)
    {
      var unread;
      records, unread := CollectLive(env, dir.logs, now);
      LiveWinnersFacts(AllItems(env, dir.logs), now);
    }
  }

  lemma {:induction false} NothingFolded()
    ensures Latest([]) == []
  {}

  lemma {:induction false} SortLength(s: seq<Located>)
    ensures |StableSort(s, TimeOf)| == |s|
  {
    SortFacts(s, TimeOf);
    assert |multiset(StableSort(s, TimeOf))| == |multiset(s)|;
  }

  lemma {:induction false} OverlayKeepsShape(a: PackedIndex, b: PackedIndex)
    requires WellShaped(a) && a.logs == b.logs && a.entries == b.entries
    ensures WellShaped(b)
  {}

  /** A log that appeared or changed its size shows in the sizes. */
  lemma {:induction false} GrowthShows(before: map<string, LogFile>, after: map<string, LogFile>, n: string)
    requires n in after && after[n].readable
    requires n in before && before[n].readable ==> |before[n].data| != |after[n].data|
    ensures Sizes(before) != Sizes(after)
  {
    assert n in Sizes(after);
  }

  /** The logs after an append to one, which may be new. */
  function GrownBy(logs: map<string, LogFile>, n: string, extra: bytes, mtime: int): map<string, LogFile> {
    logs[n := LogFile((if n in logs then logs[n].data else []) + extra, true, mtime)]
  }

  /** A peer appends after our last look at the disk; a `get` once the TTL is over sees it: unless the logs
      cannot be indexed, it answers as a full scan of the logs with the append does. */
  method PeerAppendIsSeen(c: LogCache, peer: string, extra: bytes, mtime: int, key: string, now: int, wall: int,
                          mono: int)
    returns (answer: Answer)
    requires c.Valid() && c.Knows().sizes == Some(Sizes(c.dir.logs)) && now <= wall && c.Rechecks(c.Knows(), mono)
    requires extra != [] && (peer in c.dir.logs ==> c.dir.logs[peer].readable)
    modifies c, c.dir
    ensures c.dir.pool == old(c.dir.pool)
    ensures c.dir.logs == GrownBy(old(c.dir.logs), peer, extra, mtime)
    ensures answer == Raises <==> !Indexable(c.env, c.dir.logs, wall)
    ensures forall keys :: answer != Raises && Distinguishes(c.env, keys, key, AllItems(c.env, c.dir.logs)) ==>
              answer == c.ScanAnswerHere(c.dir.logs, c.dir.pool, key, wall)
  {
    hide AllItems, IsFresh, Indexable, CollisionFree, Lawful, WellShaped, OutcomeAt, ServedFrom;
    ghost var before := c.dir.logs;
    c.dir.logs := GrownBy(c.dir.logs, peer, extra, mtime);
    GrowthShows(before, c.dir.logs, peer);
    var retried;
    answer, retried := c.Get(key, now, wall, mono, c.dir.View(), now, wall, mono);
  }

  /** What the index finds at a build is what iteration yields: a key's digest hits exactly when a
      disk-fresh scan yields a live record for the key. */
  lemma {:induction false} IndexHitsAreIterated(env: Env, logs: map<string, LogFile>, now: int, ix: PackedIndex,
                                                keys: set<string>, key: string, iterated: seq<Located>)
    requires IsFresh(env, AllItems(env, logs), now, ix)
    requires CollisionFree(env, keys) && key in keys && forall x :: x in AllItems(env, logs) ==> x.rec.key in keys
    requires forall x :: x in iterated <==> Winner(AllItems(env, logs), x.rec.key) == Some(x) && x.rec.LiveAt(now)
    ensures Index.Find(ix, env.digest(key)).Some? <==> exists x :: x in iterated && x.rec.key == key
  {
    hide AllItems, IsFresh, Winner;
    FreshShape(env, AllItems(env, logs), now, ix);
    FreshLookup(env, AllItems(env, logs), now, ix, keys, key);
    var w := Winner(AllItems(env, logs), key);
    WinnerHasKey(AllItems(env, logs), key);
    if w.Some? && w.value.rec.LiveAt(now) { assert w.value in iterated; }
  }
}
