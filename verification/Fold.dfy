/**
 Latest-wins folding of records.

 Every reader, compaction and consolidation folds the same way: records are taken log by log in
 name order, and a later record replaces the current one for its key when its store time is not
 smaller.  `Winner` is that fold for one key; `Latest` is the insertion-ordered dictionary of it.
 */
module Fold {
  import opened Bytes
  import opened Options
  import opened Pickle
  import opened Order

  /** A record with the log it came from and its frame's byte span there. */
  datatype Located = Located(rec: Record, log: string, start: nat, end: nat)

  // ------------------------------------------------------------------ one key

  /** One step of the fold for `key`. */
  function Choose(cur: Option<Located>, x: Located, key: string): Option<Located> {
    if x.rec.key == key && (cur.None? || x.rec.Time() >= cur.value.rec.Time()) then Some(x) else cur
  }

  function Winner(items: seq<Located>, key: string): (w: Option<Located>)
    ensures w.Some? ==> w.value.rec.key == key && w.value in items
  {
    if items == [] then None
    else Choose(Winner(items[..|items| - 1], key), items[|items| - 1], key)
  }

  lemma {:induction false} WinnerIsNewest(items: seq<Located>, key: string)
    ensures Winner(items, key).None? <==> forall x :: x in items ==> x.rec.key != key
    ensures forall x :: x in items && x.rec.key == key ==>
              Winner(items, key).Some? && x.rec.Time() <= Winner(items, key).value.rec.Time()
  {
    if items != [] {
      var front, last := items[..|items| - 1], items[|items| - 1];
      assert items == front + [last];
      WinnerIsNewest(front, key);
    }
  }

  /** Declarative reading of the fold: no record of the key is newer, nor as new and later placed. */
  ghost predicate IsLatestAt(items: seq<Located>, i: nat) {
    i < |items| &&
    forall j :: 0 <= j < |items| && items[j].rec.key == items[i].rec.key ==>
      items[j].rec.Time() < items[i].rec.Time() || (items[j].rec.Time() == items[i].rec.Time() && j <= i)
  }

  /** The fold's answer is the record at the one place that nothing newer or later contests. */
  lemma {:induction false} WinnerIsLatest(items: seq<Located>, i: nat)
    requires IsLatestAt(items, i)
    ensures Winner(items, items[i].rec.key) == Some(items[i])
  {
    var n := |items| - 1;
    var front, last, key := items[..n], items[n], items[i].rec.key;
    if i == n {
      WinnerIsNewest(front, key);
    } else {
      WinnerIsLatest(front, i);
      assert front[i] == items[i];
    }
  }

  /** Later items override: the fold of a concatenation. */
  lemma {:induction false} WinnerConcat(a: seq<Located>, b: seq<Located>, key: string)
    ensures Winner(a + b, key) ==
            if Winner(b, key).None? then Winner(a, key)
            else Choose(Winner(a, key), Winner(b, key).value, key)
  {
    if b == [] {
      assert a + b == a;
    } else {
      var n := |b| - 1;
      assert (a + b)[..|a + b| - 1] == a + b[..n];
      WinnerConcat(a, b[..n], key);
    }
  }

  // ------------------------------------------------------------------ all keys

  /** `latest[rec.key] = rec` on an insertion-ordered dictionary, when `rec` is not older. */
  function Upsert(dict: seq<Located>, x: Located): (d: seq<Located>)
    ensures |dict| <= |d| <= |dict| + 1
  {
    if dict == [] then [x]
    else if dict[0].rec.key == x.rec.key then
      [if x.rec.Time() >= dict[0].rec.Time() then x else dict[0]] + dict[1..]
    else [dict[0]] + Upsert(dict[1..], x)
  }

  function Latest(items: seq<Located>): (d: seq<Located>)
    ensures |d| <= |items|
  {
    if items == [] then [] else Upsert(Latest(items[..|items| - 1]), items[|items| - 1])
  }

  /** `dict.get(key)` */
  function Get(dict: seq<Located>, key: string): (w: Option<Located>)
    ensures w.Some? ==> w.value.rec.key == key && w.value in dict
  {
    if dict == [] then None
    else if dict[0].rec.key == key then Some(dict[0])
    else Get(dict[1..], key)
  }

  ghost predicate DistinctKeys(dict: seq<Located>) {
    forall i, j :: 0 <= i < j < |dict| ==> dict[i].rec.key != dict[j].rec.key
  }

  lemma {:induction false} GetNone(dict: seq<Located>, key: string)
    ensures Get(dict, key).None? <==> forall x :: x in dict ==> x.rec.key != key
  {
    if dict != [] {
      GetNone(dict[1..], key);
      assert dict == [dict[0]] + dict[1..];
    }
  }

  lemma {:induction false} UpsertFacts(dict: seq<Located>, x: Located)
    requires DistinctKeys(dict)
    ensures DistinctKeys(Upsert(dict, x))
    ensures forall k :: Get(Upsert(dict, x), k) == Choose(Get(dict, k), x, k)
    ensures forall y :: y in Upsert(dict, x) ==> y == x || y in dict
  {
    if dict != [] && dict[0].rec.key != x.rec.key {
      UpsertFacts(dict[1..], x);
      var d := Upsert(dict, x);
      assert d[1..] == Upsert(dict[1..], x);
      forall j | 0 < j < |d|
        ensures d[0].rec.key != d[j].rec.key
      {
        assert d[j] in d[1..];
      }
    }
  }

  lemma {:induction false} LatestHolds(items: seq<Located>)
    ensures DistinctKeys(Latest(items))
    ensures forall k :: Get(Latest(items), k) == Winner(items, k)
  {
    if items != [] {
      LatestHolds(items[..|items| - 1]);
      UpsertFacts(Latest(items[..|items| - 1]), items[|items| - 1]);
    }
  }

  lemma {:induction false} GetDistinct(dict: seq<Located>, x: Located)
    requires DistinctKeys(dict)
    ensures x in dict <==> Get(dict, x.rec.key) == Some(x)
  {
    if dict != [] {
      GetDistinct(dict[1..], x);
      assert dict == [dict[0]] + dict[1..];
      if dict[0].rec.key == x.rec.key && x in dict {
        var j :| 0 <= j < |dict| && dict[j] == x;
        assert j == 0;
      }
    }
  }

  /** The dictionary's values are exactly the winners. */
  lemma {:induction false} LatestMembers(items: seq<Located>)
    ensures forall x :: x in Latest(items) <==> Winner(items, x.rec.key) == Some(x)
  {
    LatestHolds(items);
    forall x { GetDistinct(Latest(items), x); }
  }

  /** With one record a key, each record wins. */
  lemma {:induction false} DistinctWins(items: seq<Located>, key: string)
    requires DistinctKeys(items)
    ensures Winner(items, key) == Get(items, key)
  {
    if items != [] {
      var n := |items| - 1;
      DistinctWins(items[..n], key);
      GetSnoc(items[..n], items[n], key);
      assert items == items[..n] + [items[n]];
      var w := Get(items[..n], key);
      if w.Some? {
        assert w.value in items[..n];
        assert items[n].rec.key != key;
      }
    }
  }

  lemma {:induction false} GetSnoc(dict: seq<Located>, x: Located, key: string)
    ensures Get(dict + [x], key) ==
            if Get(dict, key).Some? then Get(dict, key) else if x.rec.key == key then Some(x) else None
  {
    if dict != [] {
      assert (dict + [x])[1..] == dict[1..] + [x];
      GetSnoc(dict[1..], x, key);
    }
  }

  // ------------------------------------------------------------------ live winners in store-time order

  function TimeOf(x: Located): int { x.rec.Time() }

  /** The live winners, oldest first: what a rewrite of these items keeps. */
  function LiveWinners(items: seq<Located>, now: int): seq<Located> {
    StableSort(Filter(Latest(items), (x: Located) => x.rec.LiveAt(now)), TimeOf)
  }

  lemma {:induction false} InsertDistinct(x: Located, s: seq<Located>)
    requires DistinctKeys(s) && forall y :: y in s ==> y.rec.key != x.rec.key
    ensures DistinctKeys(Insert(x, s, TimeOf))
    ensures forall y :: y in Insert(x, s, TimeOf) <==> y == x || y in s
  {
    if s != [] && TimeOf(x) > TimeOf(s[0]) {
      InsertDistinct(x, s[1..]);
      var rest := Insert(x, s[1..], TimeOf);
      assert s == [s[0]] + s[1..];
      forall j | 0 <= j < |rest|
        ensures s[0].rec.key != rest[j].rec.key
      {
        assert rest[j] in rest;
      }
    } else {
      assert Insert(x, s, TimeOf) == [x] + s;
    }
  }

  lemma {:induction false} SortDistinct(s: seq<Located>)
    requires DistinctKeys(s)
    ensures DistinctKeys(StableSort(s, TimeOf))
    ensures forall y :: y in StableSort(s, TimeOf) <==> y in s
  {
    if s != [] {
      SortDistinct(s[1..]);
      InsertDistinct(s[0], StableSort(s[1..], TimeOf));
    }
  }

  lemma {:induction false} FilterDistinct(s: seq<Located>, p: Located -> bool)
    requires DistinctKeys(s)
    ensures DistinctKeys(Filter(s, p))
  {
    if s != [] {
      FilterDistinct(s[1..], p);
      var rest := Filter(s[1..], p);
      forall j | 0 <= j < |rest|
        ensures s[0].rec.key != rest[j].rec.key
      {
        assert rest[j] in s[1..];
      }
    }
  }

  /** The live winners: exactly those, one a key, in store-time order. */
  lemma {:induction false} LiveWinnersFacts(items: seq<Located>, now: int)
    ensures var keep := LiveWinners(items, now);
            && SortedBy(keep, TimeOf) && DistinctKeys(keep)
            && forall x :: x in keep <==> Winner(items, x.rec.key) == Some(x) && x.rec.LiveAt(now)
  {
    var p := (x: Located) => x.rec.LiveAt(now);
    var live := Filter(Latest(items), p);
    LatestHolds(items);
    LatestMembers(items);
    FilterDistinct(Latest(items), p);
    SortFacts(live, TimeOf);
    SortDistinct(live);
  }
}
