/** Which frames that do not load are kept, and which are tears. */
module FrameLaws {
  import opened Bytes
  import opened Options
  import opened Pickle
  import opened Frames
  import opened ScanFacts

  /** A frame stands whole at `pos` with this blob, and the blob does not load. */
  ghost predicate FailsToLoad(env: Env, data: bytes, pos: nat, blob: bytes) {
    && pos + HEADER + |blob| <= |data| && UnpackBE(data[pos..pos + HEADER]) == |blob|
    && data[pos + HEADER..pos + HEADER + |blob|] == blob && env.load(blob).Raised?
  }

  /** Only imports are missing: with stubs for some names the blob loads to its end, as a record's six fields. */
  ghost predicate OnlyImportsMissing(env: Env, blob: bytes) {
    match env.salvage(blob)
    case Unsalvageable => false
    case Salvaged(obj, consumed, missing) => consumed == |blob| && missing != {} && ValidEnvelope(obj)
  }

  /** A frame that does not load is read if and only if nothing but imports is missing, and then its blob is kept
      as it is. */
  lemma {:induction false} SalvagedExactly(env: Env, data: bytes, pos: nat, blob: bytes)
    requires FailsToLoad(env, data, pos, blob)
    ensures ParseFrame(env, data, pos).Some? <==> OnlyImportsMissing(env, blob)
    ensures ParseFrame(env, data, pos).Some? ==>
              && ParseFrame(env, data, pos).value.end == pos + HEADER + |blob|
              && ParseFrame(env, data, pos).value.rec.value == Opaque(blob)
  {
    hide ValidEnvelope;
  }

  /** The scan stops being intact where it comes to what does not parse. */
  lemma {:induction false} TearWhere(env: Env, data: bytes, from: nat, pos: nat)
    requires pos == from || exists s :: s in Intact(env, data, from) && s.end == pos
    requires ParseFrame(env, data, pos).None?
    ensures IntactEnd(env, data, from) == pos
    decreases |data| - from
  {
    hide ParseFrame;
    if ParseFrame(env, data, from).Some? {
      var here := ParseFrame(env, data, from).value;
      var s :| s in Intact(env, data, from) && s.end == pos;
      assert s == here || s in Intact(env, data, here.end);
      TearWhere(env, data, here.end, pos);
    } else {
      assert Intact(env, data, from) == [];
    }
  }

  /** A frame that does not load for another reason than a missing import is a tear, at the start of a log or behind
      whole frames. */
  lemma {:induction false} BrokenFrameIsTear(env: Env, data: bytes, pos: nat, blob: bytes)
    requires FailsToLoad(env, data, pos, blob) && !OnlyImportsMissing(env, blob)
    requires pos == 0 || exists s :: s in Intact(env, data, 0) && s.end == pos
    ensures TearAt(env, data) == Some(pos)
  {
    hide Intact, ParseFrame, OnlyImportsMissing;
    SalvagedExactly(env, data, pos, blob);
    TearWhere(env, data, 0, pos);
  }

  /** Past a tear a scan resumes only at a frame whose blob starts with the byte 0x80. */
  lemma {:induction false} ResumesAtPickles(env: Env, data: bytes, pos: nat, s: Span)
    requires s in Walk(env, data, pos) && s.start != pos && forall t :: t in Walk(env, data, pos) ==> t.end != s.start
    ensures s.start + HEADER < |data| && data[s.start + HEADER] == 0x80
    decreases |data| - pos
  {
    hide ParseFrame;
    var here := ParseFrame(env, data, pos);
    if here.Some? {
      OverFrame(env, data, pos);
      assert here.value in Walk(env, data, pos);
      ResumesAtPickles(env, data, here.value.end, s);
    } else {
      var next := NextAnchor(env, data, pos + 1).value;
      if s.start != next { ResumesAtPickles(env, data, next, s); }
    }
  }
}
