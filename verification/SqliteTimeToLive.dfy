/** How long an entry of the SQLite cache set with a time to live is served, with the arithmetic written out. */
module SqliteTimeToLive {
  import opened Bytes
  import opened Options
  import opened Expiry
  import opened SqliteRows
  import opened SqliteFiles
  import opened SqliteCaches
  import opened SqliteRuns
  import opened TimeToLive

  predicate Touches(call: Call, key: string) {
    match call
    case SetCall(k, _, _, _, _) => k == key
    case DeleteCall(k) => k == key
    case ClearCall => true
    case _ => false
  }

  /** The call reads no clock later than `t`. */
  predicate NotAfter(call: Call, t: int) {
    match call
    case SetCall(_, _, _, now, _) => now <= t
    case GetCall(_, now) => now <= t
    case ExpireCall(cutoff) => cutoff <= t
    case _ => true
  }

  /** What the dictionary holds of a key that was set and not written since: its value, or nothing, and that only
      once it has expired. */
  lemma {:induction false} HoldsOrExpired(m: map<string, Slot>, set_: Call, mid: seq<Call>, t: int)
    requires set_.SetCall? && forall call :: call in mid ==> !Touches(call, set_.key)
    ensures var held := DictRun(m, [set_] + mid);
            && (set_.key in held ==> held[set_.key] == Slot(set_.blob, ExpiryTime(set_.expire, set_.now)))
            && ((forall call :: call in mid ==> NotAfter(call, t)) && set_.key !in held ==>
                  !Lives(set_.expire, set_.now, t))
    decreases |mid|
  {
    var calls := [set_] + mid;
    var n := |calls| - 1;
    if mid == [] {
      assert calls[..n] == [] && calls[n] == set_;
      assert DictRun(m, []) == m;
    } else {
      assert calls[..n] == [set_] + mid[..n - 1] && calls[n] == mid[n - 1] && mid[n - 1] in mid;
      assert forall call :: call in mid[..n - 1] ==> call in mid;
      HoldsOrExpired(m, set_, mid[..n - 1], t);
    }
  }

  lemma {:induction false} AnswerLives(held: map<string, Slot>, set_: Call, t: int)
    requires set_.SetCall?
    requires set_.key in held && held[set_.key] == Slot(set_.blob, ExpiryTime(set_.expire, set_.now))
    ensures Answer(held, set_.key, t) == if Lives(set_.expire, set_.now, t) then Some(set_.blob) else None
  {}

  /** After a `set`, with no later write of its key, a `get` at `t` answers its value exactly while it lives, as long
      as its row is there, and so, on a clock that does not run backwards, whenever everything set has room. */
  method ServedWhileFresh(cache: SqliteCache, set_: Call, mid: seq<Call>, t: int) returns (r: Option<bytes>)
    requires cache.Valid() && set_.SetCall? && SqliteRuns.Fresh([set_] + mid, cache.files)
    requires forall call :: call in mid ==> !Touches(call, set_.key)
    modifies cache
    ensures cache.Valid()
    ensures var rows := RowsRun(Setup(cache.policy, cache.sizeLimit, cache.minFileSize), old(cache.rows), [set_] + mid);
            if set_.key in Keys(rows) then r == Some(set_.blob) <==> Lives(set_.expire, set_.now, t) else r == None
    ensures (forall call :: call in mid ==> NotAfter(call, t))
            && (cache.sizeLimit.None? || old(cache.size) + Volume([set_] + mid) <= cache.sizeLimit.value) ==>
              (r == Some(set_.blob) <==> Lives(set_.expire, set_.now, t))
  {
    hide View, Sound, Total, RowsRun, Evicting, Below, Same, Within, Volume, DictRun, Touches, NotAfter, Lives, Keys,
      AfterGet;
    HoldsOrExpired(cache.Held(), set_, mid, t);
    var _ := Run(cache, [set_] + mid);
    HeldKeys(cache.rows, cache.files);
    if set_.key in cache.Held() { AnswerLives(cache.Held(), set_, t); }
    r := cache.Get(set_.key, t);
  }
}
