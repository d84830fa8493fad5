/** Calls of the SQLite cache that answer `True` and leave nothing behind, or found nothing fresh. */
module SqliteLimits {
  import opened Bytes
  import opened Options
  import opened Expiry
  import opened SqliteRows
  import opened SqliteFiles
  import opened SqliteCaches

  function Zeros(n: nat): bytes { seq(n, i => 0) }

  /** The row of `key` with `n` bytes set at time 5, as it goes in and as it stands. */
  function Setting(key: string, n: nat, name: string): Row { NewRow(key, Zeros(n), None, 5, 100, name) }

  function Standing(key: string, n: nat, name: string, rowid: nat): Row { Setting(key, n, name).(rowid := rowid) }

  lemma {:induction false} OneRow(r: Row)
    ensures Total([r]) == r.size && NotOlder(LeastRecentlyStored, [r], r) == [r]
  {
    assert [r][1..] == [];
  }

  lemma {:induction false} TooBig()
    ensures !Stays(LeastRecentlyStored, Upserted([], Setting("k", 11, "f")), "k", Some(10))
  {
    var only := Standing("k", 11, "f", 1);
    assert Upserted([], Setting("k", 11, "f")) == [only];
    OneRow(only);
  }

  /** With a limit of 10 bytes, a first `set` of 11 bytes answers `True` and its own cull evicts it. */
  method TooBigIsEvicted() returns (cache: SqliteCache, stored: bool)
    ensures cache.Valid() && stored && "k" !in cache.Held()
  {
    hide Stays, Culled, Upserted, NewRow, View, Sound, Total;
    cache := new SqliteCache(LeastRecentlyStored, Some(10), 100);
    stored := cache.Set("k", Zeros(11), None, 5, "f");
    TooBig();
  }

  lemma {:induction false} FirstIn()
    ensures Culled(LeastRecentlyStored, Upserted([], Setting("a", 1, "f")), Some(10)) == [Standing("a", 1, "f", 1)]
  {
    var a := Standing("a", 1, "f", 1);
    assert Upserted([], Setting("a", 1, "f")) == [a];
    OneRow(a);
  }

  lemma {:induction false} SecondIn()
    ensures Culled(LeastRecentlyStored, Upserted([Standing("a", 1, "f", 1)], Setting("b", 9, "g")), Some(10))
            == [Standing("a", 1, "f", 1), Standing("b", 9, "g", 2)]
  {
    var a, b := Standing("a", 1, "f", 1), Standing("b", 9, "g", 2);
    assert Find([a], "b") == None;
    assert Upserted([a], Setting("b", 9, "g")) == [a, b];
    OneRow(b);
    assert [a, b][1..] == [b];
  }

  lemma {:induction false} OverwriteGoes()
    ensures var rows := Upserted([Standing("a", 1, "f", 1), Standing("b", 9, "g", 2)], Setting("a", 2, "h"));
            !Stays(LeastRecentlyStored, rows, "a", Some(10))
  {
    var a, b, c := Standing("a", 1, "f", 1), Standing("b", 9, "g", 2), Standing("a", 2, "h", 1);
    assert Find([a, b], "a") == Some(0);
    assert Upserted([a, b], Setting("a", 2, "h")) == [c, b];
    assert Find([c, b], "a") == Some(0);
    OneRow(b);
    assert [c, b][1..] == [b];
    assert NotOlder(LeastRecentlyStored, [b], c) == [b] by { assert [b][1..] == []; }
    assert NotOlder(LeastRecentlyStored, [c, b], c) == [c, b];
  }

  /** With equal times an overwrite loses to a younger rowid: the second `set` of "a" answers `True`, and "a"
      is gone. */
  method TieIsEvicted() returns (cache: SqliteCache, stored: bool)
    ensures cache.Valid() && stored && "a" !in cache.Held()
  {
    hide Stays, Culled, Upserted, NewRow, View, Sound, Total;
    FirstIn();
    SecondIn();
    OverwriteGoes();
    hide Standing;
    cache := new SqliteCache(LeastRecentlyStored, Some(10), 100);
    var _ := cache.Set("a", Zeros(1), None, 5, "f");
    var _ := cache.Set("b", Zeros(9), None, 5, "g");
    stored := cache.Set("a", Zeros(2), None, 5, "h");
  }

  /** A `delete` of an entry that is already stale, and that no `get` would answer, answers `True`. */
  method StaleIsDeleted() returns (existed: bool)
    ensures existed
  {
    var cache := new SqliteCache(LeastRecentlyStored, None, 100);
    var _ := cache.Set("k", [0], Some(1), 5, "f");
    var answers := cache.Contains("k", 7);
    assert !answers;
    existed := cache.Delete("k");
  }
}
